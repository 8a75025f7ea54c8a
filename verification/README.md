# nxdumptool in Dafny

A model of the parts of nxdumptool that move and rearrange data, with proofs of
what they keep and what they deliver.

**Dumps.** Every dump runs a reader and a writer thread that hand blocks over
through a one-slot mailbox, and a supervisor that joins them and decides whether
the dump succeeded. `DumpMachine` is that protocol as a step relation: the
reader functions of the program differ only in the statements they run in front
of the mailbox, so a reader is a list of statements, and `RawDump`,
`ExtractedDump`, `RomFsDump` and `TreeDump` build the lists of the gamecard and
other raw dumps, of the extracted HFS, Partition FS and RomFS dumps, and of the
recursive dump of highlighted directory entries. The condition variables are
read in three ways. `Spurious` and `Late` follow the code: a wait is not
repeated, the wake comes after the release, and with `Spurious` a wait may also
return unasked. `Fused` makes release and wake one step and lets a wait return
only on such a wake; that is what the code's comments assume. A successful dump is
proved exact under all three for as long as the waits can be relied on, which for a
raw dump needs nothing at all. `AnyReader` has what holds of any reader without that.
`LateWakes` and `LateTrees` say for every dump, by the number and place of its blocks,
whether the code's own order of release and wake can make it go wrong, `DumpHangs` for
which dumps a cancellation, a failed read or a failed write can leave a thread asleep,
`UnharmedHangs` for which ones that happens with nothing failed at all, and
`ClosedFiles` for which a file can be closed under the writer. `Cancelling`
bounds what is still dumped after a cancellation. `DumpSession` is the shared structure
as an object whose methods are the machine's steps. `Crc32` ties the checksums to
division by the generator polynomial.

**NSP files.** `NspContexts` places the NCAs, `NcaPatch` patches them block by
block while they stream past, `PfsImage` is the archive header with its flat name
table and its bytes, `PfsFile` reads such a file from its bytes alone, `NspRecords`
the content records, `NspCnmt` the content meta file with its records as bytes and the
patch that puts it into the encrypted Meta NCA, `NspLayout` the order of entries, and
`NspBuilder` the two passes. The central results are about the bytes of the finished
file: read back, it has every entry under its right name and with its right data, and
the Meta NCA in it, decrypted and decoded, gives records that name the bytes of the
other entries.

**Other machines.** `AesCtr` has the partial counters of AES-CTR seeking,
`AsyncTask` and `DownloadTask` the re-entrant asynchronous download, `TitleList`
and `BasePatchSelector` the linked lists of titles and the cursor into one,
`FsBrowser`, `Paths` and `ScrollWindow` the file browser, `Align` and `Versions`
the alignment macros and packed version numbers, `LittleEndian` numbers, text and
hexadecimal digits as bytes.

Some proofs came out as findings about the program:

- With the wake after the release, as the code has it, a pending block can be
  overwritten in every raw dump of more than two blocks, so of more than 16 MiB, and in
  no other (`LateWakes.NeverOverwrites`). It then hangs or fails but is never reported
  as successful (`DumpTheorems.OverwritingForbidsSuccess`).
- In the same way an extracted dump to a file system can be reported as successful with
  a block in the wrong file, exactly if its entries but the last take more than one
  block together (`LateWakes.SuccessMeansSaved`).
- In a dump of a directory it takes two files next to each other: between other files
  the reader waits twice, and one late wake lets it past one wait only
  (`LateTrees.TreeSuccessMeansSaved`).
- Every raw dump can hang after a cancellation or a failed read. An extracted dump to a
  file system can hang after a write that failed in its last drain, in the code's own
  order of release and wake exactly if its last entry holds data, or the entry before
  an empty last one does and there is more than one block
  (`DumpHangs.RawStrandsWriter`, `DumpHangs.WriteErrorStrandsReader`).
- An extracted dump to a file system can hang with nothing failed, cancelled or
  overwritten, exactly if it has more than one block and not all data in its last entry:
  the writer comes to look while no file is open, for instance on a wake for a block
  that it has already written, and leaves as if the dump were over
  (`UnharmedHangs.ExtractedHangsUnharmed`). A raw dump can hang with nothing failed and
  nobody cancelling exactly if it has more than two blocks, and then a block was
  overwritten (`UnharmedHangs.RawHangsUnfailed`, `RawDump.RawHangs`).
- The file of an extracted dump of more than one block can be closed while the writer is
  between looking for it and writing to it (`ClosedFiles.ClosesUnderWriter`).
- A title with a second Meta NCA leaves a blank NCA context behind, which counts as
  a Meta NCA without a header and cannot be prepared
  (`NspContexts.FurtherMetaIsRefused`, `NspBuilder.NspJob.PrepareNca`).
- The regenerated content meta XML of an NSP carries the placeholder hash of
  every NCA that was not changed (`NspBuilder.NspJob.FinishedXml`).
- `get` with a timeout returns the result of a finished and cancelled task, which
  `get` without one refuses (`AsyncTask.TimedGetDiffers`).
- A download that finishes inside one of its handler's progress events is
  forgotten by the handler (`DownloadTask.FlagIsLost`), and waiting for the result
  there holds the mutex that the body needs (`AsyncTask.GetInsideProgressWaits`).
- If a listener throws at the last event of a download, the system is left in its
  long-running state (`DownloadTask.LongRunStays`).
- With no eligible base or patch title the selector shows "no" while its cursor
  is still on the head of the list (`BasePatchSelector.Selector.Update`).

## Model

| member | source | states |
|---|---|---|
| `DumpTheorems.RunSound` | NXDump/code_templates/nxdt_rw_poc.c:4516-4567 | Every run of reader, writer and supervisor keeps the invariants, under any of the three readings of the condition variables: the mutex has one owner, the slot holds a block of the reader's other buffer, written plus pending blocks are an in-order part of the published ones, the reader is on its statement list, and unless a block was lost the output is the reference's but for the block in the slot. |
| `DumpTheorems.EverySchedule` | NXDump/code_templates/nxdt_rw_poc.c:5942-5982 | Raw dumps under every schedule, late and spurious wakes included: the file holds exactly the emitted blocks behind what was there, these are an in-order subsequence of the non-empty published ones, `data_written` is their length and never exceeds `total_size`, and a read never goes into the buffer in the slot. |
| `DumpTheorems.SuccessIsExact` | NXDump/code_templates/nxdt_rw_poc.c:6062-6078 | A run that the supervisor reports as successful, of any well-formed reader under any reading, has emitted exactly the published blocks, its output is what the reader's statements alone would write, and the reader ran to its end or stopped because everything was written. |
| `DumpTheorems.SuccessRunsAll` | NXDump/code_templates/nxdt_rw_poc.c:6062-6078 | Success of a reader without an early exit means that all of its statements were run, with the reference output and checksums. |
| `DumpTheorems.ChecksumsAgree` | NXDump/code_templates/nxdt_rw_poc.c:4536-4540 | At every moment of every run the streamed checksums are those of the reference run of the statements done so far. |
| `DumpTheorems.LostIsOverwritten` | NXDump/code_templates/nxdt_rw_poc.c:4548-4560 | After any run, the bytes published but neither written nor in the slot are exactly the bytes that hand-overs onto a full slot destroyed. |
| `AnyReader.RunKept` | NXDump/code_templates/nxdt_rw_poc.c:4516-4567 | For every reader, also one that relies on waits it cannot rely on, and after any run: each byte of the total is still to be handed over, in the slot, written, or destroyed by a hand-over onto a full slot, and the reader is on its statement list or left its loop with everything written. |
| `DumpTheorems.OverwritingForbidsSuccess` | NXDump/code_templates/nxdt_rw_poc.c:5944-5979 | Once a pending block has been overwritten, `data_written` stays below `total_size` and the dump is never reported as successful. |
| `DumpTheorems.OneBlockBehind` | NXDump/code_templates/nxdt_rw_poc.c:4545-4566 | While the waits can be relied on, which with fused wakes is always and with late ones up to the second block, a block is handed over only into an empty slot and the emitted blocks are a prefix of the published ones, at most one behind; with fused wakes reader and writer are never both asleep. |
| `DumpTheorems.FileChangesOnEmptySlot` | NXDump/code_templates/nxdt_rw_poc.c:4713-4727 | Another output file is opened only while the slot is empty, under any reading; with fused wakes a file is closed only then, too, and never while the writer is about to write. |
| `DumpTheorems.BuffersNeverShared` | NXDump/code_templates/nxdt_rw_poc.c:5778-5925 | A read never goes into the buffer in the slot, also after a recursive call returned unswapped buffers, and past a drain that can be relied on the slot is empty. |
| `DumpLiveness.StepsBounded` | NXDump/code_templates/nxdt_rw_poc.c:4516-4567 | Unless waits return unasked and the output is a file, the worker threads take at most twenty steps for each statement, ten for each byte, and 23 more, in any run; a decreasing measure shows it. |
| `DumpLiveness.OnlyStrandings` | NXDump/code_templates/nxdt_rw_poc.c:5950-5958 | If no wait returns unasked, then for every reader neither worker can move before both have ended exactly in these states: a reader asleep unwoken whose writer left on a cancellation, on a write that failed at the last drain, or with nothing failed because no file was open; and a writer asleep unwoken whose reader left on a cancellation, a failed read or after a pending block was overwritten. |
| `DumpLiveness.NeverAbandoned` | NXDump/code_templates/nxdt_rw_poc.c:5953-5958 | The writer never leaves for want of a file, with the reader asleep behind it, if wakes are fused or there is only one file. |
| `DumpLiveness.RestsComplete` | NXDump/code_templates/nxdt_rw_poc.c:6004-6078 | With fused wakes or only one output file, threads at rest without a failure, a cancellation or an overwritten block have both ended with every byte written. |
| `Cancelling.CancelTakesEffect` | NXDump/code_templates/nxdt_rw_poc.c:4520-4525 | Once a cancellation is seen by the program, the reader hands over at most one more block or opens at most one more file, however the run goes on, if it looks before every block and file. |
| `Cancelling.AllLook` | NXDump/code_templates/nxdt_rw_poc.c:4704-4711 | The readers of raw, extracted and directory dumps look before every block and every file. |
| `DumpSchedules.Finishes` | NXDump/code_templates/nxdt_rw_poc.c:5984-6083 | From any moment at which nothing has failed and the slot is empty, the dump can go on to be reported as successful. |
| `DumpSchedules.PassesWait` | NXDump/code_templates/nxdt_rw_poc.c:4545-4548 | With a wake for the block before still under way, or one that nobody gave, the reader gets past its wait with a block still in the slot. |
| `LateWakes.NeverOverwrites` | NXDump/code_templates/nxdt_rw_poc.c:4516-4567 | For every raw dump: a pending block is never overwritten, whatever the schedule, exactly if wakes are fused, or late and the image takes at most two blocks, or spurious and it takes one. |
| `LateWakes.RawOverwrites` | NXDump/code_templates/nxdt_rw_poc.c:4545-4566 | For every raw dump with more blocks a run in which a pending block is overwritten. |
| `LateWakes.SuccessMeansSaved` | NXDump/code_templates/nxdt_rw_poc.c:4704-4847 | For every extracted dump to a file system, of entries with different paths: success means that every entry is saved with its own data, whatever the schedule, exactly if wakes are fused, or late and all entries but the last take at most one block together, or spurious and they take none. The RomFS loop may leave out empty entries at the end. |
| `LateWakes.ExtractedMisfiles` | NXDump/code_templates/nxdt_rw_poc.c:4713-4727 | For every such dump with more blocks before the last entry a run that is reported as successful and is wrong: the last of those blocks is written to the next file. |
| `LateWakes.AtMostOneBlock` | NXDump/code_templates/nxdt_rw_poc.c:4796-4798 | Entries take no block exactly if they are all empty, and at most one exactly if only one of them holds data, and no more than a block of it. |
| `LateWakes.BlockCountBounds` | NXDump/code_templates/nxdt_rw_poc.c:4516-4518 | The block loop takes at most n turns exactly for at most n blocks of data. |
| `DumpHangs.RawStrandsWriter` | NXDump/code_templates/nxdt_rw_poc.c:5950-5950 | Every raw dump, under any reading, can leave its writer asleep unwoken behind a reader that has ended, by a cancellation alone and by a failed read alone; unless waits return unasked it never moves again. |
| `DumpHangs.RawStrandsReader` | NXDump/code_templates/nxdt_rw_poc.c:5953-5958 | A cancellation can leave the reader of a raw dump asleep unwoken, because the writer leaves without waking it, exactly if the image takes more than one block; nothing else can. |
| `DumpHangs.WriteErrorStrandsReader` | NXDump/code_templates/nxdt_rw_poc.c:4842-4847 | Without a cancellation the reader of an extracted dump to a file system can be left asleep, by a write that fails while it waits in its last drain, exactly if the last entry holds data; or, with late wakes, the last entry is empty, the one before it holds data and there is more than one block; or, with spurious wakes, there is any block. |
| `DumpHangs.RawIsBounded` | NXDump/code_templates/nxdt_rw_poc.c:5944-5979 | The runs of a raw dump have a common bound exactly if no wait returns unasked or the output goes over USB: with spurious wakes the writer can write an empty block to a file any number of times. |
| `UnharmedHangs.RawHangsUnfailed` | NXDump/code_templates/nxdt_rw_poc.c:4516-4567 | A raw dump can hang with nothing failed and nobody cancelling exactly with late wakes and an image of more than two blocks. |
| `UnharmedHangs.ExtractedHangsUnharmed` | NXDump/code_templates/nxdt_rw_poc.c:5953-5953 | An extracted dump to a file system can hang with nothing failed, cancelled or overwritten exactly with late wakes, if there is more than one block and not all data is in the last entry: the writer finds no file open between two files, leaves, and wakes nobody. |
| `ClosedFiles.ClosesUnderWriter` | NXDump/code_templates/nxdt_rw_poc.c:4720-4725 | The reader of an extracted dump can be about to close the file while the writer, past its test, is about to write to it, exactly with late wakes and more than one block, or with spurious wakes and any. |
| `DumpSession.Session.ReadThread` | NXDump/code_templates/nxdt_rw_poc.c:4516-4567 | Each stretch of the reader changes the shared fields as the machine's reader step does. |
| `DumpSession.Session.HandOver` | NXDump/code_templates/nxdt_rw_poc.c:4548-4565 | The block, its size and the released mutex, the swapped statement list and the wake, as one step of the machine. |
| `DumpSession.Session.WriteThread` | NXDump/code_templates/nxdt_rw_poc.c:5942-5982 | Each stretch of the writer changes the shared fields as the machine's writer step does. |
| `DumpSession.Session.EmptySlot` | NXDump/code_templates/nxdt_rw_poc.c:5953-5973 | Leave, or append the slot's bytes to the open file, count them and empty the slot. |
| `DumpSession.Session.Supervise` | NXDump/code_templates/nxdt_rw_poc.c:6004-6078 | Cancelling, the end of polling, joining both threads, and the verdict from the three flags. |
| `DumpSession.Session.Dump` | NXDump/code_templates/nxdt_rw_poc.c:5984-6083 | The object driven by any schedule ends in the machine's state for it; when that is reported as successful, the output and the list of emitted blocks are the reference's, and all bytes are written. |
| `RawDump.SuccessfulImage` | NXDump/code_templates/nxdt_rw_poc.c:4516-4543 | Under every schedule a successful gamecard dump leaves the optional key area and then, byte by byte, the image in the one file, with bytes 0x7000 to 0x71FF at 0xFF exactly if the certificate is not kept; no other file changes. If checksums are asked for they are the one-shot CRC-32 of the treated image and of key area and image, otherwise they stay zero. Any block size of at least 0x7200 will do. |
| `RawDump.ImageInProgress` | NXDump/code_templates/nxdt_rw_poc.c:4516-4567 | At every moment of every schedule the file holds the key area and an in-order selection of blocks of a first part of the image to be dumped. |
| `RawDump.ImageGrowsInOrder` | NXDump/code_templates/nxdt_rw_poc.c:4545-4566 | While the waits can be relied on, with fused wakes at all times, the output file is a prefix of what it is to become. |
| `RawDump.RawHangs` | NXDump/code_templates/nxdt_rw_poc.c:4516-4567 | If no wait returns unasked, a raw dump can only hang after a cancellation, a failed read or an overwritten block. |
| `Crc32.Resume` | NXDump/code_templates/nxdt_rw_poc.c:4536-4540 | Continuing the checksum of one part with the next gives the one-shot CRC-32 of both together. |
| `Crc32.RegisterIsRemainder` | NXDump/code_templates/nxdt_rw_poc.c:4538-4539 | The table-driven register is the remainder of dividing the bytes, bit by bit and lowest bit first, by the generator of section 8 of RFC 1952. |
| `Crc32.DividesByGenerator` | NXDump/code_templates/nxdt_rw_poc.c:4538-4538 | One step of that division by the generator given as its list of exponents, 0, 1, 2, 4, 5, 7, 8, 10, 11, 12, 16, 22, 23 and 26 below 32. |
| `Crc32.Residue` | NXDump/code_templates/nxdt_rw_poc.c:4536-4540 | For all data: the register after the data and the four bytes of their checksum, lowest first, is 0xDEBB20E3. |
| `Crc32.CheckValue` | NXDump/code_templates/nxdt_rw_poc.c:4538-4538 | The checksum of the nine digits 1 to 9 is 0xCBF43926. |
| `DumpPrograms.BlocksRun` | NXDump/code_templates/nxdt_rw_poc.c:4516-4567 | The block loop with its two buffers, run alone, publishes exactly the treated data from an offset on, reads never into the live buffer, and extends both checksums by it. |
| `ExtractedDump.EveryEntrySaved` | NXDump/code_templates/nxdt_rw_poc.c:4704-4847 | A successful extracted HFS or Partition FS dump leaves each entry's bytes, none for an empty entry, in that entry's file, and nothing else changed, provided that the waits can be relied on until the last entry is opened; with fused wakes they always can. |
| `ExtractedDump.SavedIsEach` | NXDump/code_templates/nxdt_rw_poc.c:5092-5235 | Entries with different paths end up each with its own data, and all other paths stay as they were. |
| `ExtractedDump.NonEmptyEntriesSaved` | NXDump/code_templates/nxdt_rw_poc.c:5412-5548 | With the early end of the RomFS loop, success under the same proviso means that a first part of the entries is saved whole and the rest holds no bytes. |
| `RomFsDump.Walk` | NXDump/source/core/romfs.c:268-314 | The walk along the file table ends on any table; it succeeds exactly if no entry is cut off by the end, and, where only updated files count, the table is a patch's and each file's state can be told; it returns the entries met and the sum of the sizes that count. |
| `RomFsDump.StrideIs` | NXDump/code_templates/nxdt_rw_poc.c:5546-5547 | The distance to the next entry is the least multiple of four that has room for the entry and its name. |
| `RomFsDump.PackedIsVisited` | NXDump/code_templates/nxdt_rw_poc.c:5412-5548 | On a packed table the walk visits exactly the entry boundaries and comes out at the table's end. |
| `RomFsDump.NonEmptyFilesSaved` | NXDump/code_templates/nxdt_rw_poc.c:5412-5548 | A successful RomFS dump of a packed table has saved every file that holds any bytes, whole and under its own path, although its loop may end early; its total is the walk's. The waits must be reliable until the last file is opened. |
| `TreeDump.EveryLeafSaved` | NXDump/code_templates/nxdt_rw_poc.c:5748-5939 | A successful dump has saved exactly the leaf files below the chosen entries, provided that the waits can be relied on: with fused wakes they always can, with late ones on a file system if no file is exposed. |
| `TreeDump.ReturnsWithEmptySlot` | NXDump/code_templates/nxdt_rw_poc.c:5912-5925 | In any run, whenever the reader has just come back from a directory the slot is empty, so the caller's two buffers are both free; the waits must still be reliable. |
| `TreeDump.PathsMirror` | NXDump/code_templates/nxdt_rw_poc.c:5723-5803 | Input and output path of an entry are the names from the device's root and the same names below the output directory. |
| `TreeDump.LeavesDistinct` | NXDump/code_templates/nxdt_rw_poc.c:5748-5939 | The output paths of all leaves differ. |
| `TreeDump.TreeMirrored` | NXDump/code_templates/nxdt_rw_poc.c:5748-5939 | As a whole: each leaf file below the chosen entries is at the path that mirrors its own, with its own content, and no other path has changed; the same proviso. |
| `TreeDump.TreeByName` | NXDump/code_templates/nxdt_rw_poc.c:5748-5753 | The whole dump by lookup in the listed items: for every list of names that leads from a highlighted item to a file, that file's bytes are at the path that mirrors the names, and all other paths are as they were; the same proviso. |
| `TreeDump.HighlightedSaved` | NXDump/code_templates/nxdt_rw_poc.c:5752-5752 | Whatever comes before or between them, every file at or below a highlighted item is saved whole at its own place. |
| `TreeDump.HighlightedInOrder` | NXDump/code_templates/nxdt_rw_poc.c:5748-5753 | The highlighted items are chosen one by one, in their order, whatever the others are. |
| `LateTrees.TreeSuccessMeansSaved` | NXDump/code_templates/nxdt_rw_poc.c:5748-5939 | For every directory dump to a file system: success means that every leaf is saved with its own data and nothing else changes, whatever the schedule, exactly if wakes are fused, or late and no file that holds data and does not end with the first block is followed by another file in its own directory, or spurious and all leaves but the last are empty. |
| `LateTrees.TreeMisfiles` | NXDump/code_templates/nxdt_rw_poc.c:5778-5803 | For every other such dump a run that is reported as successful and is wrong. |
| `TreeDump.NotHighlightedKept` | NXDump/code_templates/nxdt_rw_poc.c:5748-5753 | In particular nothing that belongs to an entry that is not highlighted has been written. |
| `AesCtr.InitializePartialCtr` | NXDump/include/core/aes.h:43-59 | In place: the first sixteen bytes become the partial counter of the offset, the rest stays; null pointers change nothing. If input and output are one buffer, its first half ends up mirrored instead of reversed. |
| `AesCtr.MirroredIsReversed` | NXDump/include/core/aes.h:52-58 | In one buffer the result is right exactly if the eight bytes read the same both ways. |
| `AesCtr.UpdatePartialCtr` | NXDump/include/core/aes.h:61-74 | In place: bytes 8 to 15 become the block index, highest byte first, all others stay. |
| `AesCtr.UpdatePartialCtrEx` | NXDump/include/core/aes.h:76-96 | In place: bytes 4 to 7 become the 32-bit value and bytes 8 to 15 the block index, both highest byte first; bytes 0 to 3 and whatever follows stay. |
| `AesCtr.UpdateForgets` | NXDump/include/core/aes.h:61-74 | Seeking after initialising depends on the last offset only. |
| `AesCtr.CounterAdvances` | NXDump/include/core/aes.h:43-59 | Read as a 128-bit big-endian number, the counter for an offset sixteen k further is k higher, for every 64-bit offset. |
| `AesCtr.ExtendedInjective` | NXDump/include/core/aes.h:76-96 | The extended form gives different counters for different (value, block index) pairs over the same first bytes. |
| `AesCtr.ExtendedSpells` | NXDump/include/core/aes.h:82-95 | Bytes 4 to 7 of the extended counter spell the 32-bit value and bytes 8 to 15 the offset divided by sixteen, as big-endian numbers; the first four are kept. |
| `AesCtr.ExtendedAdvances` | NXDump/include/core/aes.h:76-96 | Read as a 128-bit big-endian number, the extended counter for an offset sixteen k further is k higher. |
| `AesCtr.PartialSpells` | NXDump/include/core/aes.h:43-59 | The partial counter has the upper eight bytes reversed and then spells the offset divided by sixteen. |
| `AesCtr.SeekingIsSequential` | NXDump/include/core/aes.h:43-96 | With the partial counter and with the extended one: decrypting any chunking into whole blocks, each chunk with the counter seeked to its offset, gives the bytes of one counter mode pass (section 6.5 and appendix B.1 of NIST SP 800-38A). |
| `AesCtr.UnalignedSeeks` | NXDump/include/core/aes.h:61-96 | For both counters, two one-byte chunks come out right exactly under the ciphers whose first two key stream bytes agree, so the alignment is needed. |
| `NspContexts.FillContexts` | NXDump/code_templates/nxdt_rw_poc.c:6197-6225 | All contents but the Meta NCAs get places in their order, the first Meta NCA with ID offset 0 the last place; each further Meta NCA leaves a blank place, and without one it fails. |
| `NspContexts.OthersInOrder` | NXDump/code_templates/nxdt_rw_poc.c:6212-6225 | The contents that are not Meta NCAs are taken one by one in their order, whatever lies between them. |
| `NspContexts.FilledIsGood` | NXDump/code_templates/nxdt_rw_poc.c:6197-6225 | With a single Meta NCA the filled contexts are what the builder asks for, if the contents differ from each other in type, size or ID offset and go with the records. |
| `NspContexts.FurtherMetaIsRefused` | NXDump/code_templates/nxdt_rw_poc.c:6217-6225 | With a further Meta NCA there is a blank place before the last, which counts as a Meta NCA of no ID and no bytes. |
| `NcaPatch.WritePatch` | NXDump/source/core/nca.c:1655-1678 | In place: exactly the bytes of the block that the patch covers are replaced, and it reports whether the patch's last byte was among them. |
| `NcaPatch.LastPatchWins` | NXDump/source/core/nca.c:1655-1678 | Where patches overlap, a byte is that of the last one written over it. |
| `NcaPatch.NcaWriter.WriteHeaders` | NXDump/source/core/nca.c:506-532 | A block gets the header bytes that fall into it, with the written flags kept such that nothing still to be written is skipped later. |
| `NcaPatch.NcaWriter.WriteRegions` | NXDump/source/core/nca.c:361-377 | The same for the hash regions of a context patch. |
| `NcaPatch.NcaWriter.Replace` | NXDump/code_templates/nxdt_rw_poc.c:6634-6657 | One block of a changed NCA comes out as the header and context patches written over it in order; once nothing is flagged as left, later blocks need no change. |
| `NspBuilder.NspJob.StreamNca` | NXDump/code_templates/nxdt_rw_poc.c:6602-6676 | Block by block, the emitted bytes are the NCA with all its patches written over it in one go; the clean hash, which was checked against the records, and the dirty hash are those of the whole NCA before and after. |
| `PfsImage.ImageContext.Add` | NXDump/source/core/pfs.c:247-305 | A new entry goes behind all others: its offset is the sum of the sizes, its name the end of the name table. |
| `PfsImage.ImageContext.UpdateName` | NXDump/source/core/pfs.c:307-330 | The front of one name is overwritten in the table, all other names and the table's length stay; a longer name is refused. |
| `PfsImage.ReadsBack` | NXDump/source/core/pfs.c:247-305 | Every entry reads back from the flat header with its own name, size and running offset. |
| `PfsImage.ImageContext.WriteHeader` | NXDump/source/core/pfs.c:332-381 | The front of the buffer becomes the header's bytes: the fixed part with the padded name table size, 24 bytes for each entry, the names and the zero padding; its length is the padded size. It is refused without entries or room. |
| `PfsFile.FileReads` | NXDump/source/core/pfs.c:71-100 | A file that starts with such a header, read from its bytes alone, gives the number of entries, the start of the data, and every entry's name and data, which lies at that start plus the entry's offset. |
| `PfsImage.Padded` | NXDump/source/core/pfs.c:343-351 | The padded header is aligned to 0x20 and always longer than the header, by at most one unit. |
| `NspLayout.RenamedEntry` | NXDump/code_templates/nxdt_rw_poc.c:6690-6695 | Overwriting the front of an entry's old name with the new content ID gives the name that the new ID calls for. |
| `NspLayout.PassesAgree` | NXDump/code_templates/nxdt_rw_poc.c:6413-6516 | Every piece that the second pass writes has the size that the first pass laid out for it. |
| `NspLayout.InfoPlace` | NXDump/code_templates/nxdt_rw_poc.c:6437-6489 | An NCA's icons and XML lie one after the other from the index the first pass noted. |
| `NspLayout.PlanStarts` | NXDump/code_templates/nxdt_rw_poc.c:6491-6507 | NCA i is entry i, the content meta XML follows the NCAs, and ticket and certificate chain are the last two entries. |
| `NspLayout.ArchiveHolds` | NXDump/code_templates/nxdt_rw_poc.c:6569-6877 | Running sums, renamed entries and pieces written in order make an archive in which every entry's name and bytes are right, and the data is as long as the image says. |
| `NspRecords.XmlStillPossible` | NXDump/source/core/cnmt.c:457-481 | Once all NCAs are out, every one is referenced by a record again, so generating the XML a second time cannot fail. |
| `NspModel.XmlKeepsSize` | NXDump/source/core/cnmt.c:483-496 | Generating the content meta XML again, after IDs and hashes have changed, keeps its size. |
| `NspModel.XmlSpells` | NXDump/source/core/cnmt.c:457-497 | At the places that follow from the entries before it, the XML has digits that spell each NCA's ID and hash. |
| `LittleEndian.UnhexOfHex` | NXDump/code_templates/nxdt_rw_poc.c:6417-6417 | Reading the digits of a content ID back gives the ID, so different IDs have different names. |
| `NspRecords.UnchangedNca` | NXDump/source/core/cnmt.c:272-321 | An NCA that goes out as it was read leaves the records consistent because its clean hash was verified. |
| `NspRecords.ChangedNca` | NXDump/source/core/cnmt.c:323-360 | The update for a changed NCA puts its new ID and hash into its own record and disturbs no other. |
| `NspRecords.EveryNcaRecorded` | NXDump/code_templates/nxdt_rw_poc.c:6574-6697 | For every NCA before the Meta NCA there is a record with its ID and the hash of the bytes emitted for it. |
| `NspRecords.EveryRecordRight` | NXDump/code_templates/nxdt_rw_poc.c:6574-6697 | If the NCAs end up with different IDs, the record of each NCA's own size, type and ID offset is that record. |
| `NspBuilder.MetaCarriesRecords` | NXDump/source/core/cnmt.c:362-411 | If the Meta NCA held the records when it was read and its hash tells the two versions of the content meta file apart, what goes out for it decrypts and decodes to exactly the final records, whether it was patched or not. |
| `NspBuilder.XmlHashes` | NXDump/source/core/cnmt.c:457-497 | After an NCA's turn its ID is that of the emitted bytes if they are not the old ones, and its hash is theirs exactly if it was changed or its placeholder happens to be right. |
| `NspBuilder.NspJob.FinishedXml` | NXDump/source/core/cnmt.c:457-497 | In a finished archive the digits at an NCA's places in the XML spell its final content ID and a hash. That is the hash of the emitted bytes exactly if the NCA was changed or had that hash before it was read; of an unchanged one it is what initialising left, which is zeros. |
| `NspBuilder.NspJob.FinishedArchive` | NXDump/code_templates/nxdt_rw_poc.c:6574-6879 | A finished file is consistent in itself, if the Meta NCA held the records when it was read and its hash tells the two versions of the content meta file apart. Read from the file's bytes, the Meta NCA's entry, decrypted and decoded, gives records among which each other NCA entry has one with the content ID that the digits of the entry's name spell and the hash of the entry's bytes. |
| `NspBuilder.NspJob.EntryReads` | NXDump/code_templates/nxdt_rw_poc.c:6847-6868 | Every entry of the finished file, read from its bytes alone, has the name and the data that the plan calls for, and the data starts behind the header. |
| `NspBuilder.NspJob.TicketIsLast` | NXDump/code_templates/nxdt_rw_poc.c:6823-6845 | Read from the file: the last two entries are ticket and certificate chain, named after the rights ID. |
| `NspBuilder.NspJob.XmlIsNext` | NXDump/code_templates/nxdt_rw_poc.c:6427-6434 | Read from the file: behind the NCAs comes the content meta XML, named after the Meta NCA's final ID. |
| `NspBuilder.NspJob.InfoIsThere` | NXDump/code_templates/nxdt_rw_poc.c:6437-6489 | Read from the file: each program, control and legal information NCA has its XML under its final ID at the noted place. |
| `NspBuilder.NspJob.IconsAreThere` | NXDump/code_templates/nxdt_rw_poc.c:6454-6466 | Read from the file: the icons of a control NCA lie in front of its XML, in their order, named after its final ID and their languages. |
| `NspBuilder.NspJob.NeverUnfit` | NXDump/code_templates/nxdt_rw_poc.c:6621-6632 | If the NCAs are the recorded ones and no new content ID is another NCA's old one, each NCA passes the check and has a record to update when its turn comes, whatever was changed before it. |
| `NspCnmt.DecodeEncodeAll` | NXDump/source/core/cnmt.c:222-226 | Content records laid out one after the other decode to themselves. |
| `NspCnmt.RecordLayout` | NXDump/source/core/cnmt.c:222-226 | Hash, content ID, 40-bit size, attributes, type code and ID offset are at bytes 0, 32, 48, 53, 54 and 55 of a record, the types Meta, Program, Control and LegalInformation as 0, 1, 3 and 5. |
| `NspCnmt.EncodableIs` | NXDump/source/core/cnmt.c:222-226 | A record of any named type, or of any other one-byte code, and of less than 40 bits of size has a place in the file. |
| `NspCnmt.UpdateIsInPlace` | NXDump/source/core/cnmt.c:346-350 | An update copies the new hash and content ID over the old ones and changes no other byte of the content meta file. |
| `NspCnmt.DataPatch` | NXDump/source/core/nca.c:1683-1811 | The patch starts and ends on AES blocks, less than one block around the data; decrypted, it holds the new data where it goes and the old bytes elsewhere. |
| `NspCnmt.DataIsPut` | NXDump/source/core/nca.c:1422-1653 | With this patch written last, the decrypted NCA holds exactly the new content meta file at its place. |
| `NspCnmt.RoundUpIsAlignUp` | NXDump/source/core/nca.c:1757-1757 | The end of the patch is rounded up as the alignment macro does it on 64-bit words. |
| `NspBuilder.NspJob.PrepareNca` | NXDump/code_templates/nxdt_rw_poc.c:6583-6587 | The Meta NCA gets the patch for the records as they are now if the file has a new hash; one without an ID or shorter than the 0xC00 bytes of its header, as a blank place is, is refused. |
| `NspBuilder.NspJob.LayOut` | NXDump/code_templates/nxdt_rw_poc.c:6413-6516 | The first pass: names and sizes of all entries in the plan's order, the noted indices, the header's size and the size of the whole archive; it fails only for an unreferenced NCA or a header larger than a block. |
| `NspBuilder.NspJob.UpdateIds` | NXDump/code_templates/nxdt_rw_poc.c:6678-6696 | If the hashes differ, the NCA gets the ID and hash of what was emitted, its record and its entry's name follow; otherwise nothing changes. |
| `NspBuilder.NspJob.SendNca` | NXDump/code_templates/nxdt_rw_poc.c:6575-6697 | One NCA: written behind the previous one, its entry named after its ID, the records consistent with everything emitted so far. |
| `NspBuilder.NspJob.PutInfo` | NXDump/code_templates/nxdt_rw_poc.c:6733-6822 | Icons and XML of one NCA are written and renamed at the entries laid out for them. |
| `NspBuilder.NspJob.WriteAll` | NXDump/code_templates/nxdt_rw_poc.c:6574-6856 | Before the header: the body is as long as the image says, `nsp_offset` less the header size is `data_written`, and every entry is right. Unless it is interrupted it fails only for an NCA other than the Meta NCA that is not the recorded one, or was changed and has no record. |
| `NspBuilder.NspJob.Build` | NXDump/code_templates/nxdt_rw_poc.c:6413-6879 | On success the file is a header's bytes and a body that are a correct archive for the final IDs, `data_written` equals `total_size` and the file's length, the records match the emitted bytes, and the Meta NCA was prepared from the final records. Without cancellation, read or patch failure it fails only for a header larger than a block, an unreferenced NCA, or an NCA other than the Meta NCA whose clean hash is not the recorded one or that was changed and has no record; the last two never happen for a sound title. |
| `AsyncTask.StepKeepsInv` | NXDump/include/async_task.hpp:77-97 | Every operation on either thread, also from inside callbacks and with throwing callbacks, keeps the relation of status, future, background thread, flags and call stack. |
| `AsyncTask.StepMovesForward` | NXDump/include/async_task.hpp:165-213 | The status moves by at most one place and only forward, finishing only happens in `get` and `loopCallback`, and a finished task's cancel flag, result and callbacks are frozen. |
| `AsyncTask.CallbacksRunOnce` | NXDump/include/async_task.hpp:77-97 | Over every run the future is emptied at most once and finishing runs exactly one of `onCancelled` and `onPostExecute`, the one that the cancel flag calls for. |
| `AsyncTask.StatusIsMonotone` | NXDump/include/async_task.hpp:165-321 | However a run goes on, the status never goes back, and result, cancel flag and callbacks of a finished task stay. |
| `AsyncTask.CancelledNeverRuns` | NXDump/include/async_task.hpp:176-195 | A task cancelled before its start stays pending for good: no thread, no callback, whatever is called. |
| `AsyncTask.ProgressStops` | NXDump/include/async_task.hpp:141-152 | After a cancellation or the end, the progress never changes again. |
| `AsyncTask.ProgressShows` | NXDump/include/async_task.hpp:141-152 | Progress published by a running task that was not cancelled is what can be read. |
| `AsyncTask.ThrownIsRaised` | NXDump/include/async_task.hpp:196-206 | A body that threw leaves the task cancelled, with an empty result and without `onPostExecute`, and whoever finishes the task gets the exception. |
| `AsyncTask.GetGivesTheResult` | NXDump/include/async_task.hpp:219-236 | `get` returns a result at once exactly for a finished task that was not cancelled, and then the body's. |
| `AsyncTask.TimedGetDiffers` | NXDump/include/async_task.hpp:238-275 | The form with a timeout agrees with `get` where that can return, except exactly for finished and cancelled tasks, whose result it returns. |
| `AsyncTask.TimedGetDiffersInARun` | NXDump/include/async_task.hpp:238-275 | A run after which they differ: cancelled while the body ends, and finished by the loop. |
| `AsyncTask.GetInsideProgressWaits` | NXDump/include/async_task.hpp:292-321 | `get` inside a progress callback cannot return before the body ends, and the body can neither publish nor report an exception meanwhile. |
| `AsyncTask.GetWaitsInARun` | NXDump/include/async_task.hpp:292-321 | A run into a progress callback in which nothing but the end of the body lets `get` return. |
| `AsyncTask.Task.Execute` | NXDump/include/async_task.hpp:176-195 | The object's `execute` is the machine's step: quiet after a cancellation, an exception for the wrong status, otherwise running and inside the callback. |
| `AsyncTask.Task.FinishWith` | NXDump/include/async_task.hpp:77-97 | Result, status and callback as the machine's finishing step has them. |
| `AsyncTask.Task.Cancel` | NXDump/include/async_task.hpp:165-174 | Sets the flag unless the task has finished or was cancelled before. |
| `AsyncTask.Task.LoopCallback` | NXDump/include/async_task.hpp:292-321 | The machine's step, entering the progress or the finishing callback. |
| `AsyncTask.Task.PublishProgress` | NXDump/include/async_task.hpp:141-152 | Progress is stored only while the task runs uncancelled. |
| `AsyncTask.Task.CallbackReturns` | NXDump/include/async_task.hpp:77-97 | What the caller of `get` or `loopCallback` sees when the callback inside it is over: exception, refusal, result or answer. |
| `AsyncTask.Task.Get` | NXDump/include/async_task.hpp:219-236 | The machine's step for `get`. |
| `DownloadTask.ActKeeps` | NXDump/include/download_task.hpp:181-265 | Every action on a download keeps the handler's flag honest, the events in order and the handler's loop callback outermost. |
| `DownloadTask.ListenersMayGet` | NXDump/include/download_task.hpp:186-199 | Over every run, a listener that finds `isFinished()` true can call `get()` without waiting, exception or further callback and gets the body's result. |
| `DownloadTask.EventsInOrder` | NXDump/include/download_task.hpp:202-265 | Over every run at most one event is fired with `isFinished()` true, and the `current` values of fired events never decrease. |
| `DownloadTask.LastEventGoesOut` | NXDump/include/download_task.hpp:216-265 | Over every run in which the body's reports do not go back: if all data was reported and nothing cancelled, the action that finishes the task fires exactly one event, however recent the last one; it finds the download finished and shows the whole size. |
| `DownloadTask.EventsWhileRunning` | NXDump/include/download_task.hpp:222-230 | While the body is at work, an event is fired exactly if the last one is at least a second ago, nothing was cancelled, and the data has moved on, or stands still because it is complete or of unknown size. |
| `DownloadTask.LongRunsEnd` | NXDump/include/download_task.hpp:172-214 | Over every run in which no listener throws: outside of all callbacks the system knows of a long-running process exactly while the task runs. |
| `DownloadTask.LongRunStays` | NXDump/include/download_task.hpp:186-199 | A run in which a listener of the last event throws, after which the long-running state is never taken back. |
| `DownloadTask.PercentageIs` | NXDump/include/download_task.hpp:163-165 | The percentage is rounded down, and 100 exactly for complete data. |
| `DownloadTask.DownloadObject.OnProgressUpdate` | NXDump/include/download_task.hpp:216-265 | An event goes out exactly if the data has moved on, or is complete or of unknown size, nothing was cancelled and the last update is not too recent; it carries the final size and is remembered. |
| `DownloadTask.DownloadObject.OnPostExecute` | NXDump/include/download_task.hpp:186-199 | Firing the handler raises its flag, then it is paused and the progress updated once more. |
| `DownloadTask.DownloadObject.RunHandler` | NXDump/include/download_task.hpp:127-131 | One call of the handler, with all callbacks it leads to, is the model's action. |
| `DownloadTask.FlagIsLost` | NXDump/include/download_task.hpp:127-131 | A download that finishes uncancelled is forgotten by the handler, once all callbacks have returned, exactly if it finished inside a progress event of the handler's own making. |
| `DownloadTask.FlagStays` | NXDump/include/download_task.hpp:127-131 | With the handler paused and no callback running, the flag never changes again. |
| `DownloadTask.FlagLostInARun` | NXDump/include/download_task.hpp:127-131 | A run in which a finished download is forgotten. |
| `TitleList.GetLatestTitleInfo` | NXDump/code_templates/nxdt_rw_poc.c:1813-1859 | From anywhere in a linked list of patches: a node of the highest version, its position and the list's length; the start wins among equals, then the nearest before it, then the nearest after it. Other titles come back with position 0. |
| `TitleList.GetCount` | NXDump/include/core/title.h:311-333 | The length of the list, counted from any node. |
| `TitleList.NodesDiffer` | NXDump/code_templates/nxdt_rw_poc.c:1827-1843 | Links in both directions leave no room for a node to come twice. |
| `BasePatchSelector.Selector.Update` | NXDump/code_templates/nxdt_rw_poc.c:2116-2163 | The initial choice is the last eligible title of the highest eligible version; without one it is option 0, with the cursor still on the head. |
| `BasePatchSelector.PickedTitle` | NXDump/code_templates/nxdt_rw_poc.c:2144-2153 | Spelled out for each type: for applications and add-on content the highest version of all titles, or with a sparse layer of those not older than the update; for patches the highest of those not newer. |
| `BasePatchSelector.Selector.PressRight` | NXDump/code_templates/nxdt_rw_poc.c:1421-1438 | The cursor follows the option: option k is the k-th node, and option 0 leads to node 1, whatever the start. |
| `BasePatchSelector.Selector.PressLeft` | NXDump/code_templates/nxdt_rw_poc.c:1440-1459 | The same to the left; on option 0 no title is selected. |
| `BasePatchSelector.Selector.PressAll` | NXDump/code_templates/nxdt_rw_poc.c:1421-1459 | Any sequence of presses leaves the cursor on the node of the option, and at option 0 on none once left has been pressed. |
| `FsBrowser.PathIsStack` | NXDump/code_templates/nxdt_rw_poc.c:3639-3681 | After any sequence of enters and backs the path string is the rendering of the directories still entered, and the depth their number. |
| `FsBrowser.EntersAndBacks` | NXDump/code_templates/nxdt_rw_poc.c:3639-3681 | Entering any directories and leaving as many restores the path, the root's slash included. |
| `FsBrowser.Browser.EnterSelected` | NXDump/code_templates/nxdt_rw_poc.c:3639-3654 | The selected directory is added, its entries are shown from the top with nothing highlighted. |
| `FsBrowser.Browser.GoBack` | NXDump/code_templates/nxdt_rw_poc.c:3660-3683 | The last directory is dropped; at the root the path stays and the browser is left. |
| `FsBrowser.Browser.Invert` | NXDump/code_templates/nxdt_rw_poc.c:3692-3701 | Every highlight is flipped and the counter is the number of highlighted entries again. |
| `FsBrowser.Browser.SetAll` | NXDump/code_templates/nxdt_rw_poc.c:3702-3717 | All highlights are set or cleared, and the counter with them. |
| `FsBrowser.Browser.ToggleSelected` | NXDump/code_templates/nxdt_rw_poc.c:3685-3691 | One highlight is flipped and the counter keeps up. |
| `ScrollWindow.MoveKeeps` | NXDump/code_templates/nxdt_rw_poc.c:3731-3768 | One move keeps the selection on the page, centred away from the ends and within the middle lines at the ends. |
| `ScrollWindow.EveryMoveKeeps` | NXDump/code_templates/nxdt_rw_poc.c:1383-1420 | From the top of a non-empty list, for any page size, every sequence of moves, wrapping or not, keeps the selection on the page, the scroll position within bounds, and between the ends the selection on one of the two middle lines. |
| `ScrollWindow.UpUndoesDown` | NXDump/code_templates/nxdt_rw_poc.c:1383-1420 | Up undoes down and down undoes up in the selection, round the ends included. |
| `ScrollWindow.DownSelectsEach` | NXDump/code_templates/nxdt_rw_poc.c:1383-1400 | Pressing down selects one entry after the other and goes round at the end. |
| `ScrollWindow.MovesByOne` | NXDump/code_templates/nxdt_rw_poc.c:1383-1420 | Down and up move the selection by one; past either end they go round if that is asked for, and otherwise change nothing. |
| `Paths.JoinInjective` | NXDump/code_templates/nxdt_rw_poc.c:5775-5803 | Different lists of names have different paths. |
| `Align.AlignUpIsCeiling` | NXDump/include/defines.h:33-33 | For a power of two `ALIGN_UP` is the least multiple not below its argument exactly if the word has room for one, and 0 otherwise. |
| `Align.AlignDownIsFloor` | NXDump/include/defines.h:34-34 | For a power of two `ALIGN_DOWN` takes the remainder off. |
| `Align.IsAlignedMeansMultiple` | NXDump/include/defines.h:35-35 | For a power of two `IS_ALIGNED` holds exactly for its multiples. |
| `Align.PowerOfTwoTest` | NXDump/include/defines.h:37-37 | `IS_POWER_OF_TWO` holds exactly for the powers of two. |
| `Align.DivideUpIsLeast` | NXDump/include/defines.h:39-39 | `DIVIDE_UP` gives the number of blocks that is enough with none to spare exactly if its sum fits into the word, and 0 otherwise. |
| `Versions.SystemOrder` | NXDump/include/core/nxdt_includes.h:83-99 | Comparing system version words compares (major, minor, micro, relstep), and equal words are equal versions. |
| `Versions.SystemRoundTrip` | NXDump/include/core/nxdt_includes.h:83-99 | Unpacking a packed system version gives it back. |
| `Versions.SystemRoundTripBack` | NXDump/include/core/nxdt_includes.h:83-99 | Packing the fields of any word gives the word back. |
| `Versions.SystemFields` | NXDump/include/core/nxdt_includes.h:83-99 | Major, minor, micro and relstep are at bits 26, 20, 16 and 0 of the word. |
| `Versions.RelstepOrder` | NXDump/include/core/nxdt_includes.h:87-93 | Comparing relsteps compares their two bytes, the major one first. |
| `Versions.ApplicationOrder` | NXDump/include/core/nxdt_includes.h:103-113 | Comparing application version words compares (release, private), and packing undoes unpacking. |
| `Versions.ApplicationRoundTrip` | NXDump/include/core/nxdt_includes.h:103-113 | Unpacking undoes packing. |
| `Versions.SdkOrder` | NXDump/include/core/nxdt_includes.h:117-130 | Comparing SDK version words compares (major, minor, micro, relstep). |
| `Versions.SdkRoundTrips` | NXDump/include/core/nxdt_includes.h:117-130 | Packing and unpacking SDK versions undo each other. |
| `Versions.FirmwareThresholds` | NXDump/include/core/gamecard.h:161-165 | Comparing with the four words that game card firmware is chosen by tells the major versions from 4, 9, 11 and 12 on. |

## Left out

- Threads, mutexes, condition variables and clocks themselves; a step is a stretch of code between two points where another thread can be seen.
- USB, file system and gamecard calls: their success or failure is a choice of the environment, and the bytes they deliver are parameters. A failed write leaves no bytes behind in the model, a successful one all of them.
- Allocation failures and path truncation at `FS_MAX_PATH`; the unlocked `data = NULL` and `data_size = 0` at the start of each reader, which only repeat the initial values.
- What readers do after an error: they close and delete the output, which is the end of the reader in the model.
- `ftruncate` of the output to its final size: a file is the bytes written to it.
- Liveness after a cancellation or a failure: which sleeps can happen is listed exactly, and for raw and extracted dumps when; for the recursive dump only which. In the recursive dump a caller may wake the writer once more after a directory was left early, which the model does not have.
- DumpTheorems.OneBlockBehind: not claimed once the waits cannot be relied on; `LateWakes.NeverOverwrites` shows that it is then false.
- DumpTheorems.FileChangesOnEmptySlot: closing a file on a full slot is excluded for fused wakes only; with late ones the last file can be closed too early, and the dump then does not succeed.
- ExtractedDump.EveryEntrySaved: needs waits that can be relied on; `LateWakes.SuccessMeansSaved` shows that this is exactly what it takes.
- TreeDump.TreeMirrored: needs the same; `LateTrees.TreeSuccessMeansSaved` shows that it is exactly what it takes.
- RomFsDump.NonEmptyFilesSaved: likewise, and a file's path is a parameter, not generated from the directory table.
- DumpLiveness.RestsComplete: with late wakes for dumps to one file only; `UnharmedHangs.ExtractedHangsUnharmed` says when it fails for others.
- The writer's test for an open file and its write are one step. `ClosedFiles.ClosesUnderWriter` says when the reader can close the file in between; what a write to a closed file does is not modelled.
- UnharmedHangs.ExtractedHangsUnharmed: hangs in which a block was also overwritten are not counted; not over USB, where no file is looked for.
- LateTrees.TreeSuccessMeansSaved: not over USB, for the same reason as the next.
- LateWakes.SuccessMeansSaved: not over USB, where announcing the next file is refused while bytes of the last one are missing (NXDump/source/core/usb.c:1271).
- Illegal character replacement, file splitting, free space tests and the concatenation files of the SD card.
- The block cipher, SHA-256 and RSA: functions of their input. Keys, tickets and the decryption of NCA headers.
- How patches are generated: header, FS header and hash region data are parameters of an NCA. For the Meta NCA the layer with the content meta file is modelled; its headers and the hash layers above are functions of the records, and the section is unencrypted or in counter mode, not AES-XTS.
- NspBuilder.NspJob.Build: starts from contexts in which only the last is a Meta NCA; a blank one before it is refused by `PrepareNca`, which is not followed through `Build`. The results of `fwrite` are not looked at by the program, so the model lets every write to the archive succeed; over USB names are sent with each entry before they are corrected, which is not modelled.
- NspBuilder.NspJob.EntryReads: for blocks below 4 GiB and archives below 2^64 bytes, which is what the fields of a header can say; `PfsImage.ImageContext.WriteHeader` cuts larger numbers off, as storing them does. `FinishedArchive` and the other statements about the file's bytes need the same.
- PfsFile.FileReads: the reader's tests of magic word, entry count and name table size are those of the bytes read here; that it refuses other files is not modelled.
- NspBuilder.NspJob.StreamNca: 64-bit sizes are unbounded here.
- NspRecords.EveryRecordRight: assumes one record for each (size, type, ID offset) triple and NCA, carrying the NCA's ID; this is what the title database says of an installed title.
- Initialising the content type contexts of an NCA: their XML and icons are parameters.
- AesCtr.InitializePartialCtr: input and output that overlap without being the same buffer.
- The destructor of a running task, and exceptions of other kinds than the task's own and the body's.
- The download's speed and remaining time, which are floating point numbers for display; an update is only recent or not.
- DownloadTask.EventsInOrder: an event is its firing; how far its listeners have been served when a nested event is fired is not recorded.
- The repeating task that the download's handler derives from is not part of this model; it calls the handler at top level while started, and `fireNow` calls it at once.
- Views, settings, keyboard input, console output and the host program.
- Hash tables of RomFS, HFS and Partition FS images on the input side, LZ4, BKTR storage, NACP, NSO and certificate chains.
