# A verified model of the CDJ-3000 emulator's hard parts

This project models, in Dafny, the parts of the emulator whose correctness depends on every
interleaving, every split of a stream or every byte of an input, and proves what they promise.

| file | component |
|---|---|
| `Staging.dfy`, `StagingLaws.dfy` | the staged firmware install: installer, slot owner, removal and a running QEMU, coordinated by three locks and a completion record; any process may end before any file operation |
| `StagingRemovals.dfy`, `StagingTidy.dfy` | what a removal does to a running QEMU, and what the calls leave in the staging directory |
| `MainLcd.dfy` | the main screen: QEMU writing under a generation counter, a lock-free poller and a UI that uploads later |
| `SeqLock.dfy`, `FrameBuffers.dfy` | copies taken under an odd/even counter, and the jog screen's two shared buffers |
| `MidiParse.dfy`, `MidiLink.dfy` | the MIDI driver's running-status parser, and its table of links shared by a pump thread, `Send`, `Start` and `Stop` |
| `MidiDevices.dfy`, `MidiRemovals.dfy` | the device list of MIDIServer: what a starting driver removes from it, and how often each published device is removed |
| `Cpio.dfy`, `CpioLaws.dfy`, `CpioLayout.dfy` | the `newc` archive reader and writer, the in-place ownership rewrite, and the archive byte by byte |
| `DevdOutput.dfy`, `DevdInput.dfy`, `DevLines.dfy`, `DevRequests.dfy` | guest jobs: cutting output into lines, devd's receive buffer, and the line protocol, either way, on a stream that may stop anywhere |
| `DevJobs.dfy`, `DevJobsEvents.dfy`, `DevJobsLimits.dfy` | the life of a job across reconnects, where its events come from, and exactly when it hears and runs its own |
| `WindowSocket.dfy`, `ControlServer.dfy` | the races between the window and a connection thread to answer a command |
| `Qcow2.dfy`, `Qcow2Layout.dfy`, `UbootEnv.dfy` | reading a range of a guest disk through the image's tables, images of every cluster size, and the U-Boot environment on top |
| `ImageDiff.dfy` | image comparison with its equal-row shortcut |
| `Crc.dfy` | CRC-16/X-25 and the stamp that ends a panel frame |
| `Runs.dfy`, `Optional.dfy`, `Bytes.dfy`, `Text.dfy` | runs of step machines, optional values, bytes, and text as UTF-8 bytes |

A concurrent component is a step machine: a state, a partial step function, and runs as lists of
actions of all parties in any order. Each atomic operation of the program (a load, a store, a rename,
a flag swap, a queued line) is one action, so a theorem about every run is one about every
interleaving. Sequential code that updates variables or buffers is a method or a class, proved
against a function whose own laws are proved beside it. A format that a reader and a writer share is also
stated in numbers and texts, without the names the two have in common, and what a party of a machine
hears is tied to the actions of the run that it comes from.

## What the models found

Thirteen promises do not hold of the code as it stands. Each has a lemma with an input or a run on which
it fails, and a theorem that says exactly when the promise is kept.

* A process that ends inside a `clear` can leave the completion record with a file gone, and the next
  `apply_staged` takes that for a swap cut short
  (`StagingLaws.DeathInsideClearBreaksTheNextApply`). A step breaks the invariant if and only if it
  tears a record (`Staging.StepKeepsInv`, with the three tearing steps in `Staging.Tears`), and an
  apply returns the files of one install if and only if the record was whole when it was read
  (`StagingLaws.ApplyIsRightIffWhole`).
* A removal of a slot that has no eMMC yet takes no lock, so it can delete a file that an apply has just
  moved, and that apply still returns its record (`StagingLaws.RemovalCanTearASwap`).
* Such a removal can also go on after an install was finished and applied and a QEMU started on it, and
  delete the image that QEMU has locked (`StagingRemovals.RemovalDeletesARunningImage`, from every initial
  state without an eMMC). If every removal begins with an eMMC to lock, a running QEMU's image stays the
  slot's live eMMC in every safe run (`StagingRemovals.RunningEmmcStaysLive`).
* A record that is there but cannot be read is taken for no record and cleared, with the finished
  install it belongs to (`StagingLaws.FailedReadDeletesAnInstall`; a failed read is harmless exactly when
  there is no record, `StagingLaws.FailedReadIsHarmlessIff`); so is one that `new` cannot see, and a staged file that an
  apply cannot see is passed over. These failed probes are steps of the machine.
* `apply_staged` writes the settings before its first rename, so the settings can name an install that
  is then discarded (`StagingLaws.SettingsCanNameADiscardedInstall`). `StagingLaws.StepBacksIff` says which
  steps take the settings' files away, and `StagingLaws.SettingsStayBacked` that no others do.
* A guest line cut off by the end of the stream is still parsed: "out 12 x" cut to "out 1" is a line of
  job 1 (`DevLines.CutNumberNamesAnotherJob`, `DevJobsLimits.CutLineIsMisread`). `DevLines.MisreadIff`
  says which pieces are taken for another line, `DevJobs.BreakKeepsInv` which breaks mislead a job, and
  `DevJobsLimits.MisleadingBreakIsHeard` that each of those does.
* devd keeps the piece of a request that a disconnect cuts, and the next connection's ping ends its line:
  "exec 1 ab" cut after the "a" runs "aping" as job 1 (`DevJobsLimits.CutRequestRunsAnother`), "exec 12 x"
  cut inside its number starts job 1 and "kill 12" kills it (`DevJobsLimits.CutNumberStartsAnother`,
  `DevJobsLimits.CutKillNamesAnother`). devd starts a job with its own command if and only if what its
  buffer held before does not make another of it (`DevJobsLimits.OwnCommandIff`).
* A command with a NUL in it is not refused, and devd sees neither its request nor those behind it until
  its buffer is full (`DevdInput.NulHidesRequests`); `DevdInput.RequestArrivesIff` says which lines arrive.
* A number that a new client will give while devd still runs it, while a request for it or a piece of one
  is on its way or in devd's buffer, or while a line of it waits behind an answer of devd's, is heard as the
  new client's job (`DevJobsLimits.NumberInUseIsHeard`), and only then (`DevJobsLimits.NumbersMustBeFresh`).
* A starting driver removes every device with its marker, also those of a run that `Stop` has just ended and
  the pump has not dropped yet, so these are removed twice (`MidiRemovals.RestartRemovesTwice`), and a `Start`
  without a `Stop` leaves a connected slot without its device (`MidiRemovals.StartOrphansASlot`). A device
  is removed once if and only if no `Start` began while it was listed (`MidiRemovals.RemovedOnceIff`).
* It removes no more than 16 of the devices that earlier loads left (`MidiDevices.SeventeenthStays`), so all
  of them are gone if and only if there were no more (`MidiDevices.StaleDevicesAreRemovedIff`).
* The qcow2 reader does not look at the mark of a cluster that reads as zeros
  (`Qcow2.MarkIsIgnored`); `Qcow2.ReadIsDisk` is the exact condition on the image.
* An entry named `TRAILER!!!` ends an archive early (`CpioLaws.ImpostorEndsTheArchive`). No strict prefix
  of an archive is accepted if and only if it has no such entry (`CpioLaws.StrictPrefixIsAnErrorIff`).

## Model

| member | source | states |
|---|---|---|
| `Staging.StepKeepsInv` | crates/cdj3k-emu-storage/src/staging.rs:75-282 | a file operation, lock, failed probe or death of an install, a drop, a read, an apply, a removal or a QEMU keeps the invariant that ties record, staged and live files, locks and processes together, if and only if it does not tear a record |
| `Staging.EveryApplyIsOneInstall` | crates/cdj3k-emu-storage/src/staging.rs:233-271 | in every run of installs, drops, deaths, failed probes, removals and applies without a step that tears a record, whenever `apply_staged` returned a record, all three live files and the settings were those of the one install whose `finish` wrote it |
| `Staging.LiveFilesStayUntilApply` | crates/cdj3k-emu-storage/src/staging.rs:111-198 | along any run without a rename of an apply or a delete of a removal, the live files do not change |
| `StagingLaws.FirstRenameBeginsTheSwap` | crates/cdj3k-emu-storage/src/staging.rs:254-267 | the first rename of an apply puts the slot in the state the next two rows are about |
| `StagingLaws.HalfSwapIsFinishedNotReplaced` | crates/cdj3k-emu-storage/src/staging.rs:126-135 | from the first rename on, along every run until the swap is complete, the record and every file of it stay staged or live, unless a removal or a failed probe gives the record up |
| `StagingLaws.InstallsNeverGiveUpAHalfSwap` | crates/cdj3k-emu-storage/src/staging.rs:126-135 | a new install that finds a half-done swap leaves at once: the staging lock is free again, the disk unchanged, no process is clearing and the swap is still there to be finished |
| `Staging.ApplyNeverReplacesARunningEmmc` | crates/cdj3k-emu-storage/src/staging.rs:241-262 | no rename of an apply replaces an eMMC image that a running QEMU has locked |
| `StagingLaws.ApplyIsRightIffWhole` | crates/cdj3k-emu-storage/src/staging.rs:233-271 | for every run in which one apply reads the record and later returns it, with no live file deleted and no staged file passed over in between, what it returned is of one install if and only if each file of the record was staged or already live when it was read |
| `StagingLaws.WaitingInstallCanBeApplied` | crates/cdj3k-emu-storage/src/staging.rs:233-271 | such a run exists from every state in which the owner is free to apply |
| `StagingLaws.GivesUpIff` | crates/cdj3k-emu-storage/src/staging.rs:126-135 | the steps after which a record is being cleared that was not before are exactly a new install over a finished one, a removal that gets the staging lock, and a failed probe |
| `StagingLaws.FailedReadIsHarmlessIff` | crates/cdj3k-emu-storage/src/staging.rs:212-227 | a failed read of the record does what a good one would if and only if there is no record |
| `StagingLaws.FailedReadClearsTheInstall` | crates/cdj3k-emu-storage/src/staging.rs:212-227 | from every finished install that waits, a run of safe steps in which one read of the record fails leaves the staging directory empty |
| `StagingLaws.FailedReadDeletesAnInstall` | crates/cdj3k-emu-storage/src/staging.rs:212-227 | the run from the initial state: an install finishes whole, and a reader whose read fails then deletes it |
| `StagingLaws.DeathInsideClearBreaksTheNextApply` | crates/cdj3k-emu-storage/src/staging.rs:75-95 | a run from the initial state in which a death inside `clear` makes the next apply return a record with a live file of another install |
| `StagingLaws.RemovalCanTearASwap` | crates/cdj3k-emu-storage/src/lib.rs:69-82 | a run from an empty slot in which a removal deletes a file that an apply has just moved, and the apply returns its record |
| `StagingLaws.StepBacksIff` | crates/cdj3k-emu-storage/src/staging.rs:244-262 | a step takes from the settings the files of the install they name if and only if it gives up a record they still need, or deletes a live file that is not waiting under it |
| `StagingLaws.SettingsStayBacked` | crates/cdj3k-emu-storage/src/staging.rs:244-262 | in every run without those steps and without tearing, the settings name an install whose files are live, or staged under its record |
| `StagingLaws.GivingUpANeededRecordUnbacks` | crates/cdj3k-emu-storage/src/staging.rs:75-95 | after such a record is given up, the next deletion leaves the settings without their files |
| `StagingLaws.SettingsCanNameADiscardedInstall` | crates/cdj3k-emu-storage/src/staging.rs:248-262 | from every finished install that waits, a run of safe steps leaves the settings naming it while its files are gone |
| `Staging.RemoveLiveKeepsInv` | crates/cdj3k-emu-storage/src/lib.rs:69-82 | deleting a live file keeps the invariant if and only if no record counts on it |
| `StagingRemovals.RunningEmmcStaysLive` | crates/cdj3k-emu-storage/src/lib.rs:65-81 | in every safe run whose removals each begin with an eMMC to lock, the image of each running QEMU is the slot's live eMMC: no removal deletes it and no apply replaces it |
| `StagingRemovals.RemovalIsRefused` | crates/cdj3k-emu-storage/src/lib.rs:69-70 | in those runs a removal cannot begin while a QEMU runs |
| `StagingRemovals.RemovalEmptiesTheSlot` | crates/cdj3k-emu-storage/src/lib.rs:73-79 | in those runs a removal that makes its last deletion leaves none of the three live files |
| `StagingRemovals.RemovalDeletesARunningImage` | crates/cdj3k-emu-storage/src/lib.rs:69-81 | from every initial state without an eMMC, a run of safe steps in which a removal that found nothing to lock deletes the image of a QEMU that holds its lock |
| `StagingTidy.CallsLeaveNoRest` | crates/cdj3k-emu-storage/src/staging.rs:75-231 | in every safe run in which no process dies inside a call, whenever the staging lock is free the directory holds a finished install's record or is empty: an install given up leaves no file behind |
| `Staging.EmmcLockKeepsInv` | crates/cdj3k-emu-storage/src/lib.rs:176-206 | taking the lock of the live eMMC image, for a QEMU or a removal, keeps the invariant (`StagingRemovals` says what the lock is for) |
| `MainLcd.DirtyUnion.Resize` | crates/cdj3k-emu-streams/src/main_stream.rs:333-338 | a new size drops the union, the same size keeps it |
| `MainLcd.DirtyUnion.Add` | crates/cdj3k-emu-streams/src/main_stream.rs:341-348 | the union becomes the smallest box around itself and the rect |
| `MainLcd.DirtyUnion.Take` | crates/cdj3k-emu-streams/src/main_stream.rs:350-353 | hands over the union and empties it |
| `MainLcd.Slot.Publish` | crates/cdj3k-emu-streams/src/main_stream.rs:220-249 | the union moves into the slot exactly when there is one, the lock is free and the UI took the last one; otherwise nothing is lost |
| `MainLcd.RegionCovers` | crates/cdj3k-emu-streams/src/main_stream.rs:281-319 | the region the poller computes holds every pixel of every update between the generations it last saw and now sees, missed or concurrent ones included |
| `MainLcd.OneUpdateIsTight` | crates/cdj3k-emu-streams/src/main_stream.rs:281-319 | a poll that saw one update to its end and nothing after it asks for exactly the pixels that update may have touched |
| `MainLcd.DirtyRectIff` | crates/cdj3k-emu-streams/src/main_stream.rs:279-290 | a dirty rect counts exactly when it has pixels and all of them are on the surface |
| `MainLcd.NoPixelIsForgotten` | crates/cdj3k-emu-streams/src/main_stream.rs:171-218 | in every interleaving of writer, poller and UI, each pixel written since the session began matches the texture or lies in the upload under way, the posted rect, the kept union or the rect of an update not yet seen |
| `MainLcd.DrainedScreenMatches` | crates/cdj3k-emu-streams/src/main_stream.rs:171-353 | once the writer has stopped and the UI has drained, every pixel written is on screen |
| `MainLcd.ReadersCanDrain` | crates/cdj3k-emu-streams/src/main_stream.rs:171-249 | from every reachable state between two updates, steps of the poller and the UI alone reach a drained, matching screen |
| `SeqLock.AcceptedCopyIsOneFrame` | crates/cdj3k-emu-streams/src/jog_stream.rs:385-398 | a copy accepted at an even counter, under any interleaving of single-byte writes and reads, is complete and holds bytes of exactly one frame the writer completed |
| `SeqLock.JogCanvasIsOneFrame` | crates/cdj3k-emu-streams/src/jog_stream.rs:385-398 | every canvas `copy_stable` fills was copied under an even counter and is one completed frame's, byte for byte |
| `SeqLock.CaptureIsOneFrame` | crates/cdj3k-emu-streams/src/main_stream.rs:364-391 | `capture` from an even generation returns the size and every row of one completed frame |
| `SeqLock.CapturedPixel` | crates/cdj3k-emu-streams/src/main_stream.rs:376-387 | each captured pixel has the red, green and blue of that frame at 64 bytes and `y` strides and `x` pixels into the shared memory, and opaque alpha |
| `FrameBuffers.FrameBuffers.Writable` | crates/cdj3k-emu-streams/src/jog_stream.rs:260-269 | always yields a buffer no reader holds, replacing one that is held, and changes no image a reader holds |
| `FrameBuffers.FrameBuffers.Publish` | crates/cdj3k-emu-streams/src/jog_stream.rs:271-276 | gives out the buffer just written and turns to the other one |
| `FrameBuffers.FrameBuffers.Poll` | crates/cdj3k-emu-streams/src/jog_stream.rs:308-340 | a tick publishes exactly the stable frame it copied, and no image a reader holds changes |
| `FrameBuffers.Session` | crates/cdj3k-emu-streams/src/jog_stream.rs:250-276 | over any sequence of polls, torn copies and reader drops, what the readers hold is what was published |
| `MidiParse.Slot.Parse` | tools/midi-driver/device.c:139-174 | one read yields the bytes and messages of the byte-by-byte parser, from any reachable state; the SysEx buffer never overruns and the packets fit `PARSE_LIST_BYTES` |
| `MidiParse.Slot.DataByte` | tools/midi-driver/device.c:165-170 | a data byte completes or extends the message in progress, under running status; the count stays below `need`, at most 2 |
| `MidiParse.Slot.Status` | tools/midi-driver/device.c:151-163 | a status byte ends a SysEx in progress, starts one, or starts a message, and drops a stray F7 |
| `MidiParse.ParseReads` | tools/midi-driver/device.c:139-174 | however a stream is split into reads of at most `READ_CHUNK`, the flattened output and the messages are those of the whole stream |
| `MidiParse.MessagesAreComplete` | tools/midi-driver/device.c:115-126 | every message that comes out has its status byte and, by the ranges of the MIDI specification, exactly the data bytes it takes, and every reachable state is sound |
| `MidiParse.OutputIsNormalForm` | tools/midi-driver/device.c:139-174 | the flattened output, fed to a fresh slot, comes out again unchanged |
| `MidiParse.RunningStatusRoundTrip` | tools/midi-driver/device.c:139-174 | any list of complete messages, written with running status left out wherever allowed, parses to exactly that list |
| `MidiParse.RealTimeIsTransparent` | tools/midi-driver/device.c:146-150 | System Real Time bytes put anywhere, also inside a message or a SysEx, change nothing else that comes out: parser, messages and bytes |
| `MidiParse.TwoDataBytes` | tools/midi-driver/device.c:115-126 | wherever the parser is, a status byte from 80 to BF or E0 to EF, or F2, and two data bytes give exactly that message, and the data bytes alone give it again if it was a channel's |
| `MidiParse.OneDataByte` | tools/midi-driver/device.c:115-126 | the same for C0 to DF, F1 and F3 with one data byte |
| `MidiParse.NoDataByte` | tools/midi-driver/device.c:120-126 | F4 to F6 and F8 to FF are messages by themselves, and only the latter leave the parser as it was |
| `MidiParse.SysExPasses` | tools/midi-driver/device.c:151-164 | wherever the parser is, a whole SysEx of any length comes out byte for byte and leaves no running status |
| `MidiParse.StrayBytesAreDropped` | tools/midi-driver/device.c:158-166 | data bytes without a status and ends of no SysEx give nothing |
| `MidiLink.RefConRoundTrip` | tools/midi-driver/driver.h:64-70 | generation and slot index are recovered from the refCon |
| `MidiLink.EveryRunKeepsTheTable` | tools/midi-driver/link.c:62-257 | in every interleaving of pump, `Send`, `Start` with its removal of stale devices, `Stop` and code that reuses descriptors, the table invariant holds: each link has one owner, each socket is open or closed once, each device belongs to one slot, and it is listed until `slot_retire` or a `Start` removes it |
| `MidiLink.PathsAreDistinct` | tools/midi-driver/link.c:13-18 | no two connected slots share a path |
| `MidiLink.SendsReachTheirOwnLink` | tools/midi-driver/link.c:222-257 | a write goes only to the connection its endpoint was published for, never to a later link in the slot or to a reused descriptor |
| `MidiLink.SendArrivesIff` | tools/midi-driver/link.c:222-257 | in every reachable state a `Send` to a published endpoint writes to the endpoint's connection if that is still in the slot, and writes nothing if it is not |
| `MidiLink.FailedLinkIsClosed` | tools/midi-driver/link.c:222-257 | a failed read or write closes the link's socket, frees its slot and hands its device over |
| `MidiLink.NothingOutlivesARun` | tools/midi-driver/link.c:197-220 | when the pump waits for a start, no slot is connected, every socket dialled was closed exactly once, and every device published was handed to `slot_retire` once or is about to be |
| `MidiDevices.RemoveStaleDevices` | tools/midi-driver/device.c:38-51 | the two loops remove from the list exactly the first 16 devices that carry the marker, skipping none |
| `MidiDevices.StaleDevicesAreRemovedIff` | tools/midi-driver/device.c:38-51 | no device without the marker is touched, and none with it is left if and only if at most 16 had it |
| `MidiDevices.SeventeenthStays` | tools/midi-driver/device.c:38-51 | of seventeen devices left behind, one stays |
| `MidiRemovals.TakenIff` | tools/midi-driver/plugin.c:56-78 | in every run, `Start` removes a published device, or is about to, if and only if one began while the device was listed and had room for it |
| `MidiRemovals.RemovedOnceIff` | tools/midi-driver/device.c:106-112 | once a run's slots are dropped and retired, every device it published is off the list, and was removed exactly once if and only if no `Start` began while it was listed |
| `MidiRemovals.SlotHasItsDeviceIff` | tools/midi-driver/device.c:53-90 | a connected slot's device is in MIDIServer's list if and only if no `Start` began since it was published |
| `MidiRemovals.RestartRemovesTwice` | tools/midi-driver/plugin.c:56-88 | the run of `Stop` and `Start` before the pump's next turn, in which a device is removed twice |
| `MidiRemovals.StartOrphansASlot` | tools/midi-driver/plugin.c:56-78 | the run in which a second `Start` leaves a connected slot whose device is gone |
| `MidiLink.StoppedRunStaysStopped` | tools/midi-driver/plugin.c:20-31 | wherever the pump asks, between two turns or with a slot just connected, a run that `Stop` ended is never live again |
| `MidiLink.DetachKeepsInv` | tools/midi-driver/device.c:56-112 | detaching a slot keeps the table invariant: its socket is closed once and its device handed over once |
| `Cpio.WriteRecord` | crates/cdj3k-emu-firmware/src/cpio.rs:280-319 | appends the record of one entry, padded relative to its own start |
| `Cpio.Write` | crates/cdj3k-emu-firmware/src/cpio.rs:269-278 | the bytes written are the entries' records, numbered from 1, and the trailer |
| `Cpio.WriteTrailer` | crates/cdj3k-emu-firmware/src/cpio.rs:321-344 | appends the trailer record |
| `Cpio.PadTo4` | crates/cdj3k-emu-firmware/src/cpio.rs:357-366 | zero-pads what follows an offset to a multiple of four, and nothing before it |
| `Cpio.Read` | crates/cdj3k-emu-firmware/src/cpio.rs:134-155 | the loop over records is the recursive reader, whose laws are below |
| `Cpio.FieldRoundTrip` | crates/cdj3k-emu-firmware/src/cpio.rs:185-191 | every 32-bit value written as eight hexadecimal digits reads back, by either reader |
| `CpioLaws.RecordParses` | crates/cdj3k-emu-firmware/src/cpio.rs:172-233 | a record parses to its fields, name and data exactly when all of it but the final padding is there, and is `Truncated` otherwise |
| `CpioLaws.EntryReadsBack` | crates/cdj3k-emu-firmware/src/cpio.rs:235-259 | the entry made from a written record is the entry with an absolute path and only permission bits |
| `CpioLaws.WrittenReadsBack` | crates/cdj3k-emu-firmware/src/cpio.rs:134-155 | for every list whose sizes fit and any bytes appended, reading gives the normalised entries before the first one named like the trailer |
| `CpioLaws.RoundTrip` | crates/cdj3k-emu-firmware/src/cpio.rs:136-344 | with any bytes appended, `read(write(entries))` is exactly `entries` if and only if all of them are well-formed |
| `CpioLaws.PrefixReads` | crates/cdj3k-emu-firmware/src/cpio.rs:134-233 | every prefix of an archive is accepted, with the same entries, exactly from a stated length on |
| `CpioLaws.StrictPrefixIsAnErrorIff` | crates/cdj3k-emu-firmware/src/cpio.rs:134-233 | no strict prefix of an archive is accepted if and only if no entry is named like the trailer |
| `CpioLaws.ImpostorEndsTheArchive` | crates/cdj3k-emu-firmware/src/cpio.rs:148-150 | the record of a file named like the trailer is accepted alone as an empty archive |
| `CpioLaws.RecordsAreAligned` | crates/cdj3k-emu-firmware/src/cpio.rs:357-366 | every record, the trailer included, starts on a multiple of four |
| `CpioLayout.FieldIsHex` | crates/cdj3k-emu-firmware/src/cpio.rs:295-311 | a header field is its value in eight upper-case hexadecimal digits, the highest first |
| `CpioLayout.EntryLayout` | crates/cdj3k-emu-firmware/src/cpio.rs:280-319 | the record of every entry, by byte offsets and numbers: `070701`, each field at its place, the mode 0x8000, 0x4000, 0xA000 or 0x2000 plus the permissions, the name and a NUL, zeros to a multiple of four, the data and zeros again |
| `CpioLayout.EmptyArchive` | crates/cdj3k-emu-firmware/src/cpio.rs:321-344 | the archive of no entries is these 124 bytes |
| `CpioLayout.ModeReads` | crates/cdj3k-emu-firmware/src/cpio.rs:235-259 | a record is read as a file, directory, link or character device exactly for the modes 0x8000, 0x4000, 0xA000 and 0x2000 plus permissions, and refused for all others |
| `CpioLayout.OneRecordReads` | crates/cdj3k-emu-firmware/src/cpio.rs:134-259 | an archive of one record with any header fields is read as the entry those fields say, or refused for its mode |
| `CpioLayout.NameOf` | crates/cdj3k-emu-firmware/src/cpio.rs:346-355 | a name is the path without its leading slashes, with forward slashes, or a dot for the root |
| `CpioLayout.PaddedField` | crates/cdj3k-emu-firmware/src/cpio.rs:182-187 | a field padded with spaces reads as the number behind them |
| `CpioLayout.CrcMagicReads` | crates/cdj3k-emu-firmware/src/cpio.rs:176-179 | a record of the checksum format reads as the same record |
| `CpioLayout.NulsAreSkipped` | crates/cdj3k-emu-firmware/src/cpio.rs:140-144 | NUL bytes between records are skipped |
| `Cpio.FixOwnership` | crates/cdj3k-emu-firmware/src/initramfs.rs:393-417 | the in-place loop turns any bytes into those of the recursive rewrite |
| `CpioLaws.FixOfWritten` | crates/cdj3k-emu-firmware/src/initramfs.rs:393-424 | rewriting an archive gives, byte for byte, the archive of the same entries with uid and gid zero |
| `DevdOutput.Job.Drain` | guest/devd/devd.c:163-180 | sends what the byte-by-byte form sends for the buffer and keeps what it keeps; on a flush, the rest too |
| `DevdOutput.Job.ReadJob` | guest/devd/devd.c:182-194 | a read, an interruption, an error or the end does to buffer and texts what feeding the bytes does; the buffer is never full before a read |
| `DevdOutput.ReadInTurns` | guest/devd/devd.c:163-194 | however the output is split into reads, with interruptions and failures, the texts sent are those of the bytes alone |
| `DevdOutput.TextsDecode` | guest/devd/devd.c:161-180 | the texts are at most `OUT_MAX` long without newline, and joining them (a full one continues, any other ended its line) gives the output back, its last line ended |
| `DevdOutput.TextsIdentify` | guest/devd/devd.c:161-180 | two outputs give the same texts if and only if they are equal once their last line is ended |
| `DevLines.PieceParses` | crates/cdj3k-emu-runtime/src/dev.rs:256-273 | what every line devd sends, and every piece of one that a stream ends in, parses to |
| `DevLines.MisreadIff` | crates/cdj3k-emu-runtime/src/dev.rs:256-273 | a piece is taken for another line than was sent if and only if enough of it arrived to be a line and something of it was cut; the number it names is never higher |
| `DevLines.JobPieceParses` | guest/devd/devd.c:94-117 | the same for `out`, `exit` and `error` lines: nothing, then the number so far, then the number and the text so far |
| `DevLines.CutStream` | crates/cdj3k-emu-runtime/src/dev.rs:205-215 | a stream cut after any byte reads as the whole lines before the cut, in order, and one piece |
| `DevLines.CutNumberNamesAnotherJob` | crates/cdj3k-emu-runtime/src/dev.rs:256-273 | "out 12 x" cut inside its number is read as a line of job 1 |
| `DevLines.LineText` | guest/devd/devd.c:94-117 | the lines devd sends, as text |
| `DevdInput.RequestText` | crates/cdj3k-emu-runtime/src/dev.rs:109-196 | the requests the host sends, as text |
| `Text.DecIsDecimal` | guest/devd/devd.c:107-112 | a number is written as its decimal digits without leading zeros |
| `DevdInput.Port.Receive` | guest/devd/devd.c:295-317 | what one read dispatches and what the buffer then keeps is what feeding its bytes one by one gives: the search for newlines that stops at a NUL, the move to the front and the discard of a full buffer included |
| `DevdInput.ReceiveAll` | guest/devd/devd.c:270-318 | however a stream is split into reads, the lines dispatched and the piece kept depend on its bytes alone |
| `DevdInput.RequestReads` | guest/devd/devd.c:236-249 | every request that arrives as the host wrote it is taken for itself, its command without leading blanks |
| `DevdInput.RequestArrivesIff` | guest/devd/devd.c:303-317 | a line is dispatched as it was sent if and only if the buffer was empty, it holds no NUL and it fits |
| `DevdInput.NulHidesRequests` | guest/devd/devd.c:303-310 | a NUL hides its line and everything behind it as long as the buffer is not full |
| `DevdInput.PieceOfRunJob` | guest/devd/devd.c:242-243 | what every piece of a request for a job names once a line end follows it: nothing, or as much of its number as arrived |
| `DevdInput.PendingIsStarted` | guest/devd/devd.c:242-243 | the ping of the next connection completes every piece kept to a request for the number the piece names, and for no other |
| `DevJobs.StepKeepsInv` | guest/devd/devd.c:126-256 | every step of host, channel and guest, cut requests and devd's receive buffer included, keeps the invariant that what a live job was told and what is on its way make up what was sent, and that no live job's number is taken from a line that is no request |
| `DevJobs.ReadKeepsInv` | crates/cdj3k-emu-runtime/src/dev.rs:222-247 | passing a line on, or losing all jobs at `hello`, keeps it |
| `DevJobs.StartKeepsInv` | crates/cdj3k-emu-runtime/src/dev.rs:109-144 | starting a job under a new number, on an open or a broken connection, keeps it |
| `DevJobs.BreakKeepsInv` | crates/cdj3k-emu-runtime/src/dev.rs:203-220 | a break after any number of lines and bytes keeps it if and only if what arrives of the next line is not taken for an event, of a job that still runs then, other than the next one sent |
| `DevJobs.EveryJobIsTold` | crates/cdj3k-emu-runtime/src/dev.rs:109-247 | in every run, reconnects and restarts included, a job is told its own lines in order from the first, then at most one of exit, error or lost; exit and error only after every line ever sent about it; on an open connection nothing is missing but what is on its way; and devd runs the job's own command under its number, unless it took that number from a line that a cut request and a later ping made up |
| `DevJobs.EndIsFinal` | crates/cdj3k-emu-runtime/src/dev.rs:228-247 | what a job was told only grows, and after its end nothing is added in any later run |
| `DevJobs.StartWrites` | crates/cdj3k-emu-runtime/src/dev.rs:126-137 | starting a job takes the next number and writes `exec`, that number and the command, byte for byte |
| `DevJobs.KillWrites` | crates/cdj3k-emu-runtime/src/dev.rs:167-175 | killing a job writes `kill` and its own number |
| `DevJobsEvents.EventsAreTheJobs` | guest/devd/devd.c:163-210 | in every run, the output a job is told is what it printed in the run's actions, in order and from the first; an exit is told only with a status it ended with, and an error only with a reason devd gave; with its exit it has been told all it printed |
| `DevJobsEvents.NoJobIsStranded` | crates/cdj3k-emu-runtime/src/dev.rs:222-247 | while a connection is open, every job still waited on is asked for, runs, or has a line on its way that ends it |
| `DevJobsEvents.EveryJobEnds` | crates/cdj3k-emu-runtime/src/dev.rs:213-247 | in every run, a job nobody dropped has been told that it exited, failed or was lost, or is still waited on, and none is once the connection is down |
| `DevJobsLimits.HarmlessBreak` | crates/cdj3k-emu-runtime/src/dev.rs:203-220 | a break with too little of a line, or with nothing of it cut, misleads nobody |
| `DevJobsLimits.MisleadingBreakIsHeard` | crates/cdj3k-emu-runtime/src/dev.rs:203-220 | after every break that misleads, reading on to the end tells the job what was not sent |
| `DevJobsLimits.CutLineIsMisread` | crates/cdj3k-emu-runtime/src/dev.rs:205-220 | a run in which a cut line tells a job a text the guest never sent |
| `DevJobsLimits.OwnCommandIff` | guest/devd/devd.c:242-243 | whenever devd starts a job under a number of this client's, the command is the one the client gave if and only if the buffer was empty, or what it held and the ping make up just that request |
| `DevJobsLimits.CutRequestRunsAnother` | guest/devd/devd.c:295-313 | a run in which a request cut by a disconnect is run, with the next connection's ping behind it, as another command under the job's number |
| `DevJobsLimits.CutNumberStartsAnother` | guest/devd/devd.c:242-243 | "exec 12" cut inside its number and a ping start job 1, whatever the command was |
| `DevJobsLimits.CutKillNamesAnother` | guest/devd/devd.c:244-245 | "kill 12" cut inside its number and a ping kill job 1 |
| `DevJobsLimits.NumberInUseIsHeard` | crates/cdj3k-emu-runtime/src/dev.rs:83-101 | whenever devd runs a job under a number a new client will give, or a request for it or a piece of one is on its way or in devd's buffer, or a line of it waits behind an answer, a run of safe steps tells the job of that number something before its own request has left the channel |
| `DevJobsLimits.NumbersMustBeFresh` | crates/cdj3k-emu-runtime/src/dev.rs:83-101 | for a new client, whatever others left in devd's table, its buffer and the channels: no run of safe steps tells a job of another if and only if none of the numbers still to be given is in use |
| `WindowSocket.StepKeepsInv` | crates/cdj3k-emu-platform/src/window_socket.rs:209-275 | every step of the window and the connection threads keeps what holds of each command and the queue |
| `WindowSocket.CommandsAreAnsweredRight` | crates/cdj3k-emu-platform/src/window_socket.rs:266-353 | in every interleaving a command is handed over at most once; one answered `busy` by timeout never; one handed over gets the window's reply, or `busy` if its responder was dropped without one |
| `WindowSocket.ClientsHearTheWindow` | crates/cdj3k-emu-platform/src/window_socket.rs:224-353 | in every run the window replies to a command at most once by the run's actions; a client answered by a reply heard that one, and one answered otherwise reads `busy` and was not replied to |
| `WindowSocket.CommandsComeInOrder` | crates/cdj3k-emu-platform/src/window_socket.rs:266-275 | commands are handed over in the order they were asked |
| `WindowSocket.CommandsAreAsked` | crates/cdj3k-emu-platform/src/window_socket.rs:327-344 | the commands are those the run's clients asked, one for one |
| `WindowSocket.AnswerIsFinal` | crates/cdj3k-emu-platform/src/window_socket.rs:327-353 | an answer never changes, and a command withdrawn by timeout is never handed over later |
| `WindowSocket.ThreadCanAnswer` | crates/cdj3k-emu-platform/src/window_socket.rs:327-353 | unless the window holds the responder, at most two steps of the thread's own answer its client |
| `ControlServer.StepKeepsInv` | crates/cdj3k-emu-control/src/server.rs:56-112 | every step of reader, window and writer, between any two steps of the others, keeps the queue in order |
| `ControlServer.RepliesMatchRequests` | crates/cdj3k-emu-control/src/server.rs:223-325 | queued replies answer the lines that were not blank one to one and in order, each with the answer its request got first; while the writer runs, at most the last is missing, and none while the reader reads |
| `ControlServer.RepliesAreTheWindows` | crates/cdj3k-emu-control/src/server.rs:56-112 | in every run, a reply with the window's words carries the value of the window's first answer to that request by the run's actions, and an error of a dropped responder, a bad line or a timeout is queued only when that happened |
| `ControlServer.EveryLineIsAnswered` | crates/cdj3k-emu-control/src/server.rs:223-260 | of the lines a run's reader read that were not blank, all have had their reply queued while it reads, and at most the last has not at any other time, as long as the writer runs |
| `ControlServer.TooLongIsTheLast` | crates/cdj3k-emu-control/src/server.rs:237-240 | a line that is too long gets its error and no request follows it |
| `ControlServer.NotTextIsNeverAnswered` | crates/cdj3k-emu-control/src/server.rs:232-236 | a line that is not UTF-8 is the connection's last request, and gets no reply in any later run |
| `ControlServer.EventsFollowReplies` | crates/cdj3k-emu-control/src/server.rs:84-112 | an event the window sends after replying is queued after that reply |
| `ControlServer.FirstAnswerStands` | crates/cdj3k-emu-control/src/server.rs:79-96 | once a request has an answer, no late reply, drop or timeout changes it |
| `Qcow2.ReadAt` | crates/cdj3k-emu-storage/src/qcow2.rs:25-67 | the cluster-by-cluster loop gives, for every file, offset and length, what following each byte on its own gives, errors included |
| `Qcow2.CollectInCluster` | crates/cdj3k-emu-storage/src/qcow2.rs:45-63 | the bytes of one cluster are one slice of the file |
| `Qcow2.ReadIffReachable` | crates/cdj3k-emu-storage/src/qcow2.rs:45-66 | a range is read if and only if each byte of it is mapped, not compressed and inside the file |
| `Qcow2.ReadIsDisk` | crates/cdj3k-emu-storage/src/qcow2.rs:25-67 | what is read is the flat guest disk if and only if the image has no nonzero byte in the range that a mark to read as zeros hides |
| `Qcow2Layout.PlainReads` | crates/cdj3k-emu-storage/src/qcow2.rs:25-67 | for every cluster size, and an image given by byte offsets (header words, table entries with any flag bits, tables and clusters one after the other), every range across any number of L2 tables is read as those bytes of the file |
| `Qcow2Layout.SecondTableIsRead` | crates/cdj3k-emu-storage/src/qcow2.rs:45-63 | a concrete image of two L2 tables is one of them, and its first cluster of the second table is read |
| `Qcow2Layout.BeyondTheTables` | crates/cdj3k-emu-storage/src/qcow2.rs:45-50 | a position past what the L1 table can map is absent |
| `Qcow2Layout.CutFileIsAnError` | crates/cdj3k-emu-storage/src/qcow2.rs:60-66 | a mapped position that a cut file does not reach is an error |
| `Qcow2.MarkIsIgnored` | crates/cdj3k-emu-storage/src/qcow2.rs:56-63 | an image whose marked cluster is read as it is stored |
| `UbootEnv.WriteEnv` | crates/cdj3k-emu-storage/src/emmc.rs:139-173 | the block is the checksum, the list of pairs, its end and zeros, or nothing when it does not fit |
| `UbootEnv.ReadEnv` | crates/cdj3k-emu-storage/src/emmc.rs:115-133 | the environment is that of the block read through the image, or none when it is unreadable or its checksum differs |
| `UbootEnv.ReadEntries` | crates/cdj3k-emu-storage/src/emmc.rs:121-131 | the loop fills the map with the entries up to the first empty one, later ones winning |
| `UbootEnv.BlockLayout` | crates/cdj3k-emu-storage/src/emmc.rs:135-173 | the block by byte offsets: 32 KiB, the checksum with its low byte first, `key=value` and a NUL for each variable, one more NUL and zeros; none if and only if they do not fit |
| `UbootEnv.BlockReadsIff` | crates/cdj3k-emu-storage/src/emmc.rs:117-121 | a block is read if and only if its first four bytes are the checksum of the rest |
| `UbootEnv.EntryIsSkipped` | crates/cdj3k-emu-storage/src/emmc.rs:123-131 | an entry without an equals sign is passed over |
| `UbootEnv.BlockRoundTrip` | crates/cdj3k-emu-storage/src/emmc.rs:115-173 | a written block reads back as exactly the pairs written, for any checksum function |
| `UbootEnv.EnvThroughImage` | crates/cdj3k-emu-storage/src/emmc.rs:115-173 | reading the environment of an image file whose guest disk holds the block at 0x3f8000, in mapped clusters, gives exactly the pairs written |
| `ImageDiff.ForEachPixel` | crates/cdj3k-emu-control/src/diff.rs:200-218 | the callback is called row by row with each pixel's kind |
| `ImageDiff.CallsAt` | crates/cdj3k-emu-control/src/diff.rs:200-218 | each pixel is called exactly once, at its place in row order |
| `ImageDiff.PixelMeans` | crates/cdj3k-emu-control/src/diff.rs:88-101 | a pixel is masked exactly when it is outside the region or inside a mask, and changed exactly when it is not and one of its four channels is further apart than the threshold |
| `ImageDiff.CoversMeans` | crates/cdj3k-emu-control/src/diff.rs:141-169 | a box covers the changed calls exactly when it holds every changed pixel |
| `ImageDiff.CountIsCardinality` | crates/cdj3k-emu-control/src/diff.rs:141-166 | a count is the number of calls of its kind |
| `ImageDiff.Compare` | crates/cdj3k-emu-control/src/diff.rs:129-171 | fails exactly on images of different size; otherwise its counts are those of the pixel-by-pixel calls, and its box is the smallest that holds every changed pixel |
| `ImageDiff.EqualRowTally` | crates/cdj3k-emu-control/src/diff.rs:143-151 | skipping an equal row adds to the totals what visiting its pixels would, for any masks |
| `ImageDiff.ReportMeans` | crates/cdj3k-emu-control/src/diff.rs:138-170 | running counts and bounds are the numbers of pixels and the smallest box |
| `Crc.Crc16X25` | crates/cdj3k-emu-panel/src/crc.rs:6-19 | the two loops compute the checksum whose laws are below |
| `Crc.StampCrc` | crates/cdj3k-emu-panel/src/miso_frame.rs:185-193 | stores the CRC of the bytes before it and changes nothing else; little-endian, the stamped frame has the fixed CRC |
| `Crc.AdjacentChangeIsDetected` | crates/cdj3k-emu-panel/src/crc.rs:6-19 | messages of any one length that differ only within two adjacent bytes, or in one, have different CRCs |
| `Crc.OwnCrcIsGood` | crates/cdj3k-emu-panel/src/cdj3k.rs:105-115 | a message followed by its own CRC, low byte first, always has the CRC 0x0F47, the complement of the good FCS in Appendix C.2 of RFC 1662 |
| `Crc.CheckValue` | crates/cdj3k-emu-panel/src/crc.rs:6-19 | the checksum of "123456789" is 0x906E, the check value of CRC-16/X-25 |

## Left out

- Memory order: machines interleave whole steps (sequential consistency); weaker orders of atomics are not modelled.
- Sockets, files, locks, shared memory, CoreMIDI and processes are steps that succeed, fail or are interrupted.
- MainLcd.NoPixelIsForgotten: the surface keeps one valid size, because a surface that is not valid still advances the last generation (main_stream.rs:202-207) and a resize drops the union.
- MainLcd.NoPixelIsForgotten: fewer than 2^32 counter steps (2^31 updates) pass unseen, because the u32 generation aliases after that; a failed upload in the UI is not modelled.
- SeqLock.AcceptedCopyIsOneFrame: the counter does not go a full cycle around during one copy.
- Staging.EveryApplyIsOneInstall: leaves out runs with a step of `Staging.Tears`, which are exactly the steps that break the invariant. The settings are one atomic update, and taking a lock (open and `flock`) is one step.
- MidiLink.EveryRunKeepsTheTable: fewer than 2^32 links are made, because the generation is a u32 that would repeat; epochs do not wrap; the identity read while dialling is not modelled.
- MidiRemovals.RemovedOnceIff: counts calls of `MIDISetupRemoveDevice`; what MIDIServer does with a second one on the same device is not modelled; `Start` walks the list in one step, because MIDIServer holds its setup lock while it calls the driver (device.c:92-95), and removes device by device; one `Start` runs at a time.
- MidiParse: packets carry no time stamps, and the list is counted in bytes as CoreMIDI lays it out.
- CpioLaws.RoundTrip: sizes are below 2^32, the most a header field can hold; UTF-8 replacement of invalid names and targets is not modelled, so names are their bytes.
- CpioLaws.RoundTrip: "equal" is about bytes; the program compares paths component by component, so an entry at `//a`, which is not well-formed here, reads back as one that Rust takes for equal.
- Cpio: `merge` and the directory walk that builds entries.
- DevdOutput.ReadInTurns: output is bytes; the host's replacement of invalid UTF-8 is not modelled.
- DevJobs.EveryJobIsTold: leaves out runs with a break that misleads a job, by the condition of `DevJobs.BreakKeepsInv`, and commands with a NUL, by that of `DevdInput.RequestArrivesIff`; job numbers do not wrap; a write of devd's that stops inside a line is not modelled.
- DevJobs: devd receives a request, or the piece a disconnect leaves of it, in one step (`DevdInput.ReceiveAll` is about any split); what a reopened port loses is whole requests; the length of a command is checked with the number it gets, not with one read a moment before.
- DevJobs: what a kill does to a job's processes is only that the job may end; that the end follows is not modelled.
- DevJobs: devd's table is a map from job numbers to jobs of at most 16, rather than an array of slots.
- WindowSocket, ControlServer: parsing of commands, JSON, and the accept loops.
- ControlServer.RepliesMatchRequests: a line that is too long counts as a request and gets its error as the reply.
- Qcow2.ReadAt: file offsets are unbounded numbers, so a table offset that overflows 64 bits is not modelled; the disk's virtual size is not looked at, as in the code.
- UbootEnv: CRC-32 is a parameter, and the conversion from the raw image is the assumption that the guest disk holds the written block.
- ImageDiff: a region is any predicate on pixels, in place of the floating-point test; the colours of `diff_image`.
- QEMU's arguments, provisioning, QMP, the user interface, jog physics, LUKS, signatures, compression, tar, PNG, GPT layout, panel tables, `pcmode.c` and `cfgd.c` are not part of this model.
