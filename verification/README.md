# Timelapse daemon: a Dafny model

This project models the core of a timelapse daemon for a Raspberry Pi and a USB
webcam. The daemon captures a frame every `CAPTURE_INTERVAL_SECONDS` into
`images/YYYY-MM-DD/` under names `000001.jpg`, `000002.jpg`, …. When the date
changes, it hands the finished day to a background job. That job encodes the
day's video, sends it to Telegram, merges it into `videos/master.mp4` and
sends the master.

The model is functional. The daemon is an immutable `State`:

- the current day and its directory;
- the next frame number (`seq` in the code, `next` here);
- the frames on disk, as a map from directory to file names;
- the log of finalize jobs dispatched so far.

The clock is a sequence of `date.today()` readings. Each loop top and each
one-second tick of the wait uses one reading. The camera is a sequence of
capture outcomes. A run ends when either input runs out, which stands for the
operator's interrupt.

Modules, one per concern:

- `Decimal` (`decimal.dfy`): `%0wd` formatting, the value of a digit string and
  Python's string order.
- `Calendar` (`calendar.dfy`): `datetime.date` and `isoformat()`.
- `FrameNames` (`frame_names.dfy`): frame file names, and what the encoder's
  `%06d.jpg` / `-start_number 1` input reads back.
- `FrameStore` (`frame_store.dfy`): day directories and file writes.
- `Daemon` (`daemon.dfy`): construction, the rollover check, the capture step,
  the paced wait and the main loop.
- `DaemonProperties` (`daemon_properties.dfy`): trace-level properties and the
  loop invariant.
- `Delivery` (`delivery.dfy`): the guard in front of the Telegram transport.
- `Finalizer` (`finalizer.dfy`): the master merge and the ordered, fallible
  steps of the finalize job.
- `Timelapse` (`timelapse.dfy`): how the daemon and the finalizer fit together.
- `Optional` (`optional.dfy`): an option type.

Videos are abstract: a video is the list of days whose frames it shows.

In two places the model follows the code where safer behaviour would be
expected:

- A failed delivery of the daily video raises inside the job's `try`, so it
  skips the merge and the master delivery. `Finalizer.FinalizeJob` does what
  the code does.
- There is no lock around the master merge. The model runs finalize jobs one
  after another, so its master theorems assume jobs do not overlap.

In one place the model departs from the code, and that is logged under
"Findings". The code ignores the result of the JPEG write, so a failed write
still advances the frame number. `Daemon.CaptureAsWritten` and
`Daemon.RunAsWritten` are the capture step and the main loop as written.
`Daemon.Capture` and `Daemon.Run` are the corrected versions, which advance
the number only for a stored frame. The loop invariant is proved about the
corrected loop, and `DaemonProperties.RunAsWrittenAgreesWithoutWriteFailures`
shows that the two loops agree on every trace with no failed write.

## Model

| member | source | states |
|---|---|---|
| `Decimal.PadDecimalValue` | src/timelapse.py:148 | `f"{n:06d}"` never truncates. Reading the digits back gives `n`, and for `n < 10^6` the width is exactly 6. |
| `Decimal.DigitsOrder` | src/timelapse.py:148 | For zero-padded numbers of equal width, string order is numeric order, in both directions. |
| `FrameNames.FrameNameRoundTrip` | src/timelapse.py:148 | Every frame name decodes back to the frame number it was written for. |
| `FrameNames.ParseFrameNameSound` | src/timelapse.py:148 | Every name the decoder accepts is the frame name of the number it yields, so encoder and decoder are inverses. |
| `FrameNames.FrameNameShape` | src/timelapse.py:148 | Below one million a frame name is exactly six decimal digits followed by `.jpg`. |
| `FrameNames.FrameNameOrder` | src/timelapse.py:148 | Below one million, lexical order of frame names is numeric order of frame numbers, in both directions. |
| `FrameNames.FrameNameInjective` | src/timelapse.py:148 | Two frame numbers share a name exactly when they are equal. |
| `FrameNames.NamesUpToSize` | src/timelapse.py:148-151 | The names of frames 1..k are k distinct files. |
| `FrameNames.EncodedFrameCount` | src/timelapse.py:60-61 | The encoder input starts at frame 1 and stops at the first missing number. It reads every file in the directory exactly when the directory's frames are contiguous from 1. |
| `Calendar.IsoRoundTrip` | src/timelapse.py:130 | Parsing `isoformat()` of a date gives the date back. |
| `Calendar.ParseIsoSound` | src/timelapse.py:130 | Every string the ISO parser accepts is the ISO form of the date it yields. |
| `Calendar.IsoInjective` | src/timelapse.py:177 | Two dates have the same ISO name exactly when they are equal. |
| `Calendar.IsoOrder` | src/timelapse.py:177 | Sorting directory names as strings sorts the days chronologically, in both directions. |
| `FrameStore.DayDirInjective` | src/timelapse.py:177 | Different days never share an image directory. |
| `FrameStore.EnsureDirIdempotent` | src/timelapse.py:178 | Creating a directory with `exist_ok=True` a second time changes nothing. |
| `Daemon.WaitTicks` | src/timelapse.py:181-184 | The wait uses at most `interval` ticks. No reading before its last one differed from the current day. It stops on the first differing reading, at the end of the interval, or when the clock runs out. These conditions fix the result uniquely. |
| `Daemon.Run` | src/timelapse.py:172-184 | The main loop with the corrected capture step. The log of dispatched jobs only grows, by appending. Directories are never removed. |
| `Daemon.RunAsWritten` | src/timelapse.py:172-184 | The main loop as the code runs it, with a failed write still advancing the number. The log of dispatched jobs only grows, by appending. Directories are never removed. |
| `DaemonProperties.CaptureAllCounts` | src/timelapse.py:143-151 | Within a day, any sequence of attempts keeps the current directory equal to frames 1..next-1. The number advances by exactly the count of stored frames, and no other directory changes. |
| `DaemonProperties.DayFramesExactly` | src/timelapse.py:148-151 | From frame 1 in an empty directory, k stored frames leave exactly `000001.jpg` to the k-th name. That is k files, contiguous from the encoder's start number. |
| `DaemonProperties.AsWrittenAgreesWithoutWriteFailures` | src/timelapse.py:149-151 | The code's capture and the corrected capture agree on every trace in which no write fails. |
| `DaemonProperties.UncheckedWriteLeavesGap` | src/timelapse.py:149-151 | As written, the trace stored, failed write, stored leaves frames 1 and 3 and next number 4. The directory is not contiguous, so the encoder drops frame 3. |
| `DaemonProperties.RunAsWrittenAgreesWithoutWriteFailures` | src/timelapse.py:143-151 | The code's main loop and the corrected one end in the same state on every trace in which no write fails. |
| `DaemonProperties.LoopWriteFailureGap` | src/timelapse.py:149-151 | Through the whole loop, a fresh daemon that stores, fails a write and stores again leaves frames 1 and 3 as written, which is not contiguous. The corrected loop leaves frames 1 and 2. |
| `DaemonProperties.RunWithinDay` | src/timelapse.py:172-184 | While every reading equals the current day, the main loop only captures. Its effect is that of some prefix of the capture attempts. |
| `DaemonProperties.InitGood` | src/timelapse.py:122-131 | The loop invariant holds at start when no directory exists yet for today or a later day. |
| `DaemonProperties.RolloverGood` | src/timelapse.py:173-179 | The rollover check keeps the loop invariant under a clock that does not go back. It leaves every dispatched day's directory untouched. |
| `DaemonProperties.CaptureGood` | src/timelapse.py:180 | A capture attempt keeps the loop invariant and never writes into a dispatched day's directory. |
| `DaemonProperties.IterationGood` | src/timelapse.py:172-184 | One iteration of the loop keeps the invariant under a clock that does not go back. It only appends to the job log and leaves every dispatched day's directory as it was. |
| `DaemonProperties.RunGood` | src/timelapse.py:167-184 | Under a clock that does not go back, every run keeps the invariant. The current day's frames are exactly 1..next-1. Each dispatched job names an earlier day and that day's own directory, whose frames are contiguous. Dispatched days strictly increase, so no day is finalized twice. |
| `DaemonProperties.RunFreezesDispatched` | src/timelapse.py:172-184 | Under the same clock, the directory of a day already dispatched holds the same frames at the end of any run. |
| `DaemonProperties.ThreeFramesThenRollover` | src/timelapse.py:172-184 | Interval 2, three captures, then a date change. Day one holds frames 1 to 3, exactly one job is dispatched for it, and day two starts again at frame 1. |
| `Delivery.Gate` | src/timelapse.py:106-112 | Delivery happens exactly when token and chat id are both non-empty and the size in MiB is not above the ceiling. An unconfigured bot is reported as such whatever the size. |
| `Delivery.CeilingTestExact` | src/timelapse.py:109-110 | The code's test, bytes / 1024 / 1024 > ceiling, is the integer test bytes > ceiling × 1048576. |
| `Delivery.CeilingIsInclusive` | src/timelapse.py:110 | The comparison is strict: a file of exactly the ceiling is sent, and one byte more is not. |
| `Delivery.Send` | src/timelapse.py:103-116 | The transport is called exactly when token and chat id are non-empty and the code's size test passes. A skip names its reason and returns normally, and an unconfigured bot is reported as such. A call raises only when the transport fails and counts as sent only when it succeeds. |
| `Finalizer.Attempted` | src/timelapse.py:154-164 | Reference semantics of ordered steps in one `try`. The steps that run are a prefix of the list, and every one but the last succeeded. A shorter prefix ends with the failing step. The whole list runs exactly when all but the last succeed. |
| `Finalizer.FirstFailure` | src/timelapse.py:163-164 | The caught failure is absent exactly when every step succeeds. Otherwise it is the first step that failed: every step before it succeeded. |
| `Finalizer.FinalizeJob` | src/timelapse.py:154-164 | A reported failure is the last step that ran. With no failure all four steps ran. Only steps that ran delivered anything. |
| `Finalizer.FinalizeFollowsStepOrder` | src/timelapse.py:154-164 | The job runs build, send daily, merge, send master in that order. It agrees with the reference semantics: the first failing step aborts the rest and is caught. |
| `Finalizer.FinalizeMasterEffect` | src/timelapse.py:158-161 | The master gains the day at its end only when the merge step ran and succeeded. A failed build, a failed daily delivery or a failed merge leaves it exactly as it was. |
| `Finalizer.FinalizeDeliveryGuarded` | src/timelapse.py:159-162 | Each delivery happens only through the gate. The master is sent only after a successful build and merge. An unconfigured bot sends nothing. |
| `Finalizer.MasterAccumulates` | src/timelapse.py:91-98 | Jobs run one after another leave a master showing its old contents followed by exactly the days whose merge succeeded, in job order. |
| `Finalizer.MasterChronological` | src/timelapse.py:160-161 | Starting without a master, jobs in chronological order leave a master whose days are strictly chronological. |
| `Timelapse.DispatchOrderKeepsMasterChronological` | src/timelapse.py:175 | Jobs run in the daemon's dispatch order build a master in strictly chronological day order. |

## Left out

- Camera handling is not modelled: opening the device, the start-up health check and the release at shutdown (src/timelapse.py:133-141, 188-189). A capture is only an outcome: read failed, write failed, or stored.
- The ffmpeg command lines, the `.ts` intermediate files and their cleanup are not modelled (src/timelapse.py:55-89). Encoding, copying and concatenation are fallible steps whose success is an input.
- The encoder's input is modelled as "start at frame 1, read until the first missing number". ffmpeg also searches a few numbers after the start number for the first file, and that search is not modelled.
- The Telegram `Bot`, the `/status` command and the `Application` wiring are not modelled (src/timelapse.py:113-116, 194-196, 212-215). The transport's success is an input.
- Threads are not modelled (src/timelapse.py:165, 209-210). Dispatch is an append to the job log. Finalize jobs run one after another in dispatch order. Overlapping jobs, and their unlocked writes to the master and to the shared temporary file, are not modelled.
- `time.sleep` and `date.today()` are not modelled. Their place is taken by the sequence of date readings, and the end of the inputs stands for the interrupt (src/timelapse.py:185-186).
- Exceptions in the loop body are not modelled separately. `run()` catches only `KeyboardInterrupt` (src/timelapse.py:185), so a `mkdir` that raises at line 178, after the job was dispatched and the day and directory were reassigned, or a camera read or JPEG write that raises (lines 144, 149), ends the capture loop for good while the process lives on. In the model such an end is only the inputs running out. A write that raises instead of returning false is not covered by the write-failure case.
- Configuration from the environment, directory creation at import time, logging and the argument parser are not modelled (src/timelapse.py:27-50, 201-217). The base directory is fixed as the relative root of `images/`.
- Video contents and durations are not modelled. A video is the list of days it shows.
- `Finalizer.Merge`: treats the `cp` of the first daily video as all-or-nothing. A copy that fails half way could leave a partial master, and that case is not modelled.
- `Delivery.Gate`: the code divides a float. The model compares integers. `Delivery.CeilingTestExact` proves the two agree on exact reals. Float rounding of sizes above 2^53 bytes is not modelled.
- `Delivery.Send`: `stat()` raising on a missing file is not modelled. In the job, every file reaches its delivery step only after the step that creates it has succeeded.
- `Daemon.Run`: uses the corrected capture step, so after a failed write it keeps the frame number where the code advances it (src/timelapse.py:151). `Daemon.RunAsWritten` is the loop as written. The two agree on every trace without a failed write.
- `Daemon.Capture`: a failed write leaves the state unchanged, where the code advances the frame number. `Daemon.CaptureAsWritten` is the step as written.
- `DaemonProperties.RunGood`: holds only for a clock that does not go back and a start with no directory for today or a later day. If the clock goes back, or the daemon restarts during a day, numbering restarts at 1 in a directory that already holds frames, and those frames are overwritten. It is proved about the corrected loop. As written, a failed write leaves a gap (`DaemonProperties.LoopWriteFailureGap`), so the "frames are exactly 1..next-1" part does not hold for the code.

## Findings

| source | as written | input that shows it | evidently intended | confidence | as-written member | corrected member |
|---|---|---|---|---|---|---|
| src/timelapse.py:149-151 | The result of the JPEG write is ignored, and `seq` is incremented even when no file was written. | A day starting at frame 1 with attempts stored, read ok but write failed, stored. The directory then holds `000001.jpg` and `000003.jpg`. The daily encode stops at the missing `000002.jpg` and drops the third frame. | The frame number advances only when the frame is on disk. Numbering then stays contiguous from 1 and the encode uses every stored frame. | medium: assumes a failed write is reported by a false return value rather than an exception; not executed | `DaemonProperties.UncheckedWriteLeavesGap` | `DaemonProperties.CaptureAllCounts` |
