# AtariSIO: a Dafny model

AtariSIO serves disk images and cassette data to Atari 8-bit computers. This
project models the parts of it that encode, allocate and transport data, and
proves what they are for: whatever is written is read back, sectors are never
handed out twice, and a command frame reaches the server only if it came over
the line clean and whole.

The model follows the form of the source. Objects whose methods change them are
classes with the source's fields (`MemoryImage`, `DCMCodec`, `Dos2xUtils`,
`IoBuffer`, `AtariSioDev`, `ChunkWriter`, `ChunkReader`, `AtpTrack`, `AtpImage`),
loops are loops with invariants. Each method is proved equal to a specification
function on values; the theorems are about these functions, so they hold of the
methods. Where a method and a theorem meet, a small client method says so
(`DcmCodecs.SaveThenLoad`, `AtpImages.WriteThenRead`, `DiFormat.WriteThenRead`,
`AtrFormat.WriteThenRead`, `Dos2xDisks.FillAndFetch`, `Dos2xDisks.FillAndList`,
`SioRing.FrameArrives`, `SioDevice.FrameCrosses`, `FskCode.SendBlock`).

Reading back what was written says nothing about bytes that the reader does not
look at. Those are stated on their own, as literal bytes: the numbers of the passes
of a DCM file, the label of the VTOC, the status of a directory entry and the entry
number in the links, and the headers of ATR, DI and ATP files.

## What is modelled

* **Image in memory** (`AtrImage.dfy`): geometry, offsets, reading and writing a
  sector of a byte array. The sectors tile the array exactly if a double density
  image has at least three sectors, and lie inside the image unless it has two.
* **DCM** (`DcmRecords`, `DcmArchive`, `DcmRoundTrip`, `DcmPasses`, `DcmCodec`): the delta and
  run-length records, passes whose records are linked by patching the previous
  one, and files of any number of passes. Two of the record encoders are
  ambiguous when taken alone; the exact condition is proved for each, and that
  the selection by size never picks an ambiguous record. Hence loading what was
  saved restores the image, from any state of the decoder's buffer. What is saved
  is a sequence of passes numbered from 1, which record every sector that is not
  empty, once and in order, and are filled up to the last one.
* **DOS 2.x, DOS 2.5 and MyDOS file systems** (`Dos2xVolume` to `Dos2xRuns`,
  the listing in `Dos2xDirectory` and `Dos2xListing`, the class in `Dos2xUtils`, its
  clients in `Dos2xDisks`): the VTOC over 1 to 66 sectors with the mirrored
  second VTOC of DOS 2.5, first-fit allocation for files and aligned octets for
  directories, sector chains with 10 and 16 bit links, directory entries, unique
  names, and the chain reader. One theorem covers all runs: after `InitVTOC` on
  any disk and any sequence of additions, successful or not, every file and every
  subdirectory is found by its path from sector 361 on and every file reads back
  byte for byte, nothing shares a sector, the free count and the VTOC copy are
  right and names are distinct. The bytes of the slots, links and VTOC label are
  those the formats prescribe, no sector outside the items changes, and
  `GetDos2Directory` lists every directory exactly as it is.
* **Disk size estimate** (`Dos2xEstimate`, `Dos2xTrees`): the two-round computation
  is stable, the disk has room for the contents exactly if the size was not
  cut off, and it has little more. Files of any tree are then always stored. Subdirectories need aligned
  octets, and those only exist from sector 376 on: a tree in any order and of any
  depth is stored on its estimated disk exactly if it has at most
  (size + 1) / 8 - 47 subdirectories, and no run on such a disk makes more. Empty
  subdirectories fit on the disk estimated for them exactly up to 43.
* **SIO driver** (`Sio*.dfy`): ring buffers, the checksum with end-around carry,
  frames through the transmit and receive rings, and the interrupt handler with
  its command frame buffer. An interrupt pass and an ioctl are atomic steps, as
  both hold the device lock. The theorems speak of every run from the opening of
  the device: what is handed out, when, at most once, when an answer is still let
  through, and when that is right; and when exactly the automatic speed changes.
* **ATP images** (`Crc32`, `Atp*.dfy`): the table-driven CRC against the bitwise
  CRC-32 of section 8 of RFC 1952, nested chunks, sectors, tracks, timings, and
  the search for the next sector on a turning disk. Reading what was written
  gives the image back exactly if the image is one the format can hold, and
  everything that can be read is such an image.
* **DI, ATR and FSK** (`DiFormat`, `AtrFormat`, `FskCode`): round trips with the
  exact condition under which each holds.

## What the proofs turned up

* `EncodeRec44` writes a change of the first byte as offset 0, which is read as
  256; `EncodeRec43` writes a 256-byte sector without a run so that it is not
  read back. `EncodeRec` picks neither.
* `InitVTOC` clears seven of the eight directory sectors
  (tools/Dos2xUtils.cpp:1346-1350), although its comment speaks of the directory:
  the directory is empty afterwards exactly if the eighth held no entries before.
* The size of a double density image with one or two sectors is wrong
  (tools/AtrImage.h:231-238); its ATR header is refused with two or three sectors.
* The number of sectors of a layout is a 32-bit product
  (tools/AtrImage.cpp:175-196), so that 641 sectors on 6700417 tracks pass for one.
* An ATR header restores the layout only if it is the one guessed from the
  number of sectors; a DI header only with at most 255 tracks and sides.
* Setting the mode of the driver restarts the serial numbers of command frames,
  so that `check_new_command_frame` can let an answer to an old frame pass, or
  refuse one to the latest.
* `EstimateDiskSize` rounds the size up so that a directory can still be allocated
  last, but the search for octets begins at sector 368: on a disk estimated at 720
  sectors that only works while there are fewer than 43 subdirectories.
* A file longer than 16 MB is cut by `AddFile`, but is then never stored.

## Model

| member | source | states |
|---|---|---|
| AtrImage.TilesIff | tools/AtrImage.h:115-131 | sectors follow each other without gap or overlap up to the end of the image, exactly if a double density image has at least three |
| AtrImage.StandardConfigLegal | tools/AtrImage.cpp:51-96 | the four standard formats have sectors = sectors per track * tracks * sides, tile their image, and are recognized from their layout |
| AtrImage.ConfigOfCount | tools/AtrImage.cpp:98-173 | a layout is guessed for every sector count from 1 to 65535 and no other; its product is the count; which one it is say the next three |
| AtrImage.StandardCounts | tools/AtrImage.cpp:98-173 | the sector count of each standard format gives back that format |
| AtrImage.DriveLayouts | tools/AtrImage.cpp:98-173 | the layouts for 2880 and 5760 sectors, and for 720, 1440 and 2880 sectors of 512 bytes, are those of the drives |
| AtrImage.OneTrack | tools/AtrImage.cpp:98-173 | every other count is one track on one side |
| AtrImage.FitsIff | tools/AtrImage.h:231-238 | every sector lies inside the image, unless it is double density with two sectors |
| AtrImage.ConfigOfLayout | tools/AtrImage.cpp:175-196 | a layout of any size is accepted exactly if its product, cut to 32 bits, is from 1 to 65535 |
| AtrImage.LayoutLegalIff | tools/AtrImage.cpp:175-196 | an accepted layout has as many sectors as it says exactly if its product did not wrap around |
| AtrImage.WriteChangesOneSector | tools/AtrMemoryImage.cpp:918-944 | overwriting the bytes of a sector changes that sector and no other |
| AtrImage.MemoryImage.CreateImage | tools/AtrMemoryImage.cpp:61-87 | a standard image is created with every sector zero; other formats are refused |
| AtrImage.MemoryImage.CreateImageOfLayout | tools/AtrMemoryImage.cpp:117-143 | an image of a given layout is created exactly if the layout is accepted, with zero bytes; its sectors are zero and can be used unless the product wrapped around or two sectors do not fit |
| AtrImage.MemoryImage.ReadSector | tools/AtrMemoryImage.cpp:886-916 | succeeds exactly for an existing sector and its length, with the contents of that sector |
| AtrImage.MemoryImage.WriteSector | tools/AtrMemoryImage.cpp:918-944 | succeeds exactly for an existing sector, its length and no write protection; changes that sector only, or nothing |
| DcmRecords.Rec41RoundTrip | tools/DCMCodec.cpp:703-728 | a "modified begin" record over the previous sector gives the current one, whatever was stored behind it |
| DcmRecords.Rec41Bytes | tools/DCMCodec.cpp:703-728 | it begins with the position of the last change and is two bytes longer than that position |
| DcmRecords.Rec43RoundTripIff | tools/DCMCodec.cpp:730-790 | a run-length record alone is read back exactly if the sector is shorter than 256 bytes or has a run |
| DcmRecords.Rec43Ambiguous | tools/DCMCodec.cpp:264-331 | a 256-byte literal at the front is never read back, since its offset byte 0 means 0 there |
| DcmRecords.Rec43Length | tools/DCMCodec.cpp:730-790 | a run-length record has at most one byte more than the sector, and exactly one more without a run |
| DcmRecords.Rec43Size | tools/DCMCodec.cpp:730-790 | its exact length: every byte outside of runs of three or more counts once, every run three times, and one more if the last byte is in no run |
| DcmRecords.Rec44RoundTripIff | tools/DCMCodec.cpp:792-812 | a "modified end" record alone is read back exactly if the first byte has not changed |
| DcmRecords.Rec44Bytes | tools/DCMCodec.cpp:792-812 | it begins with the position of the first change and goes to the end of the sector |
| DcmRecords.BestRecordRoundTrip | tools/DCMCodec.cpp:650-701 | the record selected is read back as the current sector over any buffer holding the previous one; the first of a pass over any buffer |
| DcmRecords.BestRecordShortest | tools/DCMCodec.cpp:650-701 | the record is the shortest of the sector itself and the candidates below 255 bytes, and the first of them in the order 47, 41, 43, 44; only type 43 is a candidate for the first sector of a pass |
| DcmArchive.RecordReadsBack | tools/DCMCodec.cpp:550-562 | the same with "same as before" records; never more than one byte over the sector |
| DcmRoundTrip.RecordsReadBack | tools/DCMCodec.cpp:506-594 | after any number of records of a pass the decoder's buffer is the encoder's previous sector, and every sector so far is restored |
| DcmRoundTrip.PassReadsBack | tools/DCMCodec.cpp:44-218 | a whole pass is decoded up to its end mark |
| DcmRoundTrip.DcmRoundTrip | tools/DCMCodec.cpp:461-612 | for every single, enhanced and double density image, decoding the encoded file gives layout and every sector back, from any buffer |
| DcmRoundTrip.PassLength | tools/DCMCodec.cpp:506-594 | no pass is longer than 0x6000 bytes, so the check for passes that are too long never fires |
| DcmPasses.EncodedIsArchive | tools/DCMCodec.cpp:461-648 | the file is a sequence of passes: each begins with FA, its number from 1 on in five bits and the density in two (0, 1 and 2 for 90k, 180k and 130k), the highest bit is set exactly in the last, each ends with 45, and all but the last have at least 0x5EFE bytes |
| DcmPasses.PassesNumbered | tools/DCMCodec.cpp:486-606 | the same from any sector and pass on |
| DcmPasses.ArchiveRecords | tools/DCMCodec.cpp:500-594 | the passes record every sector that is not empty, once and in order; exactly a repeated sector takes the single byte 46; two bytes more where sectors are left out make up the length of the file |
| DcmPasses.BlankFile | tools/DCMCodec.cpp:461-648 | the five bytes of the file of a blank disk |
| DcmPasses.HeaderIsRead | tools/DCMCodec.cpp:380-442 | the densities and the last-pass flag the reader accepts are the same bits |
| DcmCodecs.DCMCodec.EncodeRec41 | tools/DCMCodec.cpp:703-728 | the loop emits the record of the specification |
| DcmCodecs.DCMCodec.EncodeRec43 | tools/DCMCodec.cpp:730-790 | the nested loops emit the record of the specification |
| DcmCodecs.DCMCodec.EncodeRec44 | tools/DCMCodec.cpp:792-812 | the loop emits the record of the specification |
| DcmCodecs.DCMCodec.EncodeRec | tools/DCMCodec.cpp:650-701 | appends the selected record to the pass and remembers where it begins |
| DcmCodecs.DCMCodec.Save | tools/DCMCodec.cpp:461-612 | succeeds exactly for the three supported formats, leaves the image alone, and writes the encoded file: an archive whose first pass has number 1 |
| DcmCodecs.DCMCodec.DecodeRec41 | tools/DCMCodec.cpp:220-247 | fails or leaves the buffer as the specification decodes it |
| DcmCodecs.DCMCodec.DecodeRec42 | tools/DCMCodec.cpp:249-262 | the same for the DOS sector record, which is never written |
| DcmCodecs.DCMCodec.DecodeRec43 | tools/DCMCodec.cpp:264-331 | the same for run-length records |
| DcmCodecs.DCMCodec.DecodeRec44 | tools/DCMCodec.cpp:333-353 | the same for "modified end" records |
| DcmCodecs.DCMCodec.DecodeRec47 | tools/DCMCodec.cpp:363-378 | the same for uncompressed sectors |
| DcmCodecs.DCMCodec.DecodeRecFA | tools/DCMCodec.cpp:380-442 | reads the header of a pass and formats the image at the first one |
| DcmCodecs.DCMCodec.LoadPass | tools/DCMCodec.cpp:98-196 | reads the records of a pass up to its end, storing each sector |
| DcmCodecs.DCMCodec.Load | tools/DCMCodec.cpp:44-218 | succeeds exactly if the file decodes, on any input; then the image is the decoded one |
| DcmCodecs.SaveThenLoad | tools/DCMCodec.cpp:461-612 | saving and loading through any two codec objects restores layout and contents of the image |
| Dos2xVolume.SetMarkMarks | tools/Dos2xUtils.cpp:1599-1657 | marking a sector changes its bit and no other, in every format and at every position of the VTOC |
| Dos2xVolume.VtocBounds | tools/Dos2xUtils.cpp:1254-1329 | at most 66 VTOC sectors; with 10-bit links no sector above 1023 is ever free |
| Dos2xInit.InitVtocCorrect | tools/Dos2xUtils.cpp:1228-1354 | for every format and size: free are exactly the sectors outside boot, VTOC and root directory, the stored counts are the numbers of free bits; the type byte tells the number of VTOC sectors (2 on DOS 2.x; on MyDOS 2 for one, otherwise half of them plus 2 in single density, and 2 below 1024 sectors, otherwise their number plus 2, in double density), the bytes behind it how many sectors there are for files; everything else is as it was |
| Dos2xInit.InitVtocLabelled | tools/Dos2xUtils.cpp:1258-1329 | the label of a fresh VTOC: type byte, number of sectors, and zero in the bytes without a meaning |
| Dos2xFiles.RootEmptyIff | tools/Dos2xUtils.cpp:1346-1350 | the 64 entries of the root directory are unused after `InitVTOC` exactly if those of its eighth sector were before |
| Dos2xInit.StoredIsFree | tools/Dos2xUtils.cpp:1659-1677 | the stored free count is the number of free sectors whenever the VTOC invariant holds |
| Dos2xAlloc.AllocFileCorrect | tools/Dos2xUtils.cpp:1679-1815 | succeeds exactly if enough sectors are free; hands out the lowest ones in ascending order, takes no other, keeps counts and copy right; otherwise changes nothing |
| Dos2xAlloc.AllocDirectoryCorrect | tools/Dos2xUtils.cpp:1679-1815 | succeeds exactly if an aligned octet from sector 368 on is free; hands out the first, takes no other sector; otherwise changes nothing |
| Dos2xAlloc.TookAllocatable | tools/Dos2xUtils.cpp:1702-1815 | a boot, VTOC, root directory or out-of-range sector is never handed out |
| Dos2xNames.AddEntryCorrect | tools/Dos2xUtils.cpp:528-566 | names stay distinct; an entry fails only in a full directory or for a taken name that must stay; a renamed file gets the first free suffix |
| Dos2xNames.RenamedTells | tools/Dos2xUtils.cpp:528-566 | a renamed file has two decimal digits in place of its first blank and what follows it, or as the last two of eight characters |
| Dos2xNames.RenamedExamples | tools/Dos2xUtils.cpp:528-566 | README.TXT becomes README00.TXT, and LONGNAME.DOC at the eighth try LONGNA07.DOC |
| Dos2xNames.VainTries | tools/Dos2xUtils.cpp:528-566 | at most one more try than there are names can find its name taken |
| Dos2xNames.BoundIsMet | tools/Dos2xUtils.cpp:528-566 | that many tries are really needed for some directory |
| Dos2xChain.WriteChainHolds | tools/Dos2xUtils.cpp:427-470 | the sectors hold the pieces of the data, linked in order, with length and entry number |
| Dos2xChain.ReadFileCorrect | tools/Dos2xUtils.cpp:712-776 | on any image, cyclic or corrupt links included, the reader stops, and succeeds exactly for a loop-free chain of existing sectors ending in link 0, with the bytes of that chain |
| Dos2xChain.ChainReadsBack | tools/Dos2xUtils.cpp:712-776 | a chain that was written is read back byte for byte |
| Dos2xFiles.AddDataCorrect | tools/Dos2xUtils.cpp:385-425 | succeeds exactly if there is room for data and name; then the file is stored in formerly free sectors and only these, the VTOC and the new slot change; otherwise nothing does |
| Dos2xFiles.NeverCutOff | tools/Dos2xUtils.cpp:227-339 | a file that had to be cut at 16 MB is never stored |
| Dos2xFiles.AddDirectoryCorrect | tools/Dos2xUtils.cpp:341-383 | succeeds exactly with an unused slot and a free octet; then the subdirectory is empty and entered; otherwise nothing changes |
| Dos2xRuns.ApplyKeepsInv | tools/Dos2xUtils.cpp:227-470 | every addition, successful or not, keeps the invariant of the file system and all earlier files and subdirectories |
| Dos2xRuns.EveryRunKeepsEveryFile | tools/Dos2xUtils.cpp:227-470 | after `InitVTOC` and any sequence of additions: following the slots on the disk from sector 361 leads to every subdirectory and every file, the file reads back byte for byte, no two items share a sector, free count and VTOC copy are right, names are distinct; the status of a file is 0x03 exactly on a DOS 2.5 disk with a sector from 720 on, otherwise 0x42, with bit 2 set exactly for 16 bit links; number of sectors, start and name are in the slot, 10 bit links hold the number of the slot; boot sectors and VTOC label are kept |
| Dos2xRuns.RunKeepsOthers | tools/Dos2xUtils.cpp:227-470 | a run changes no sector but those of its items, and in the VTOC only bits and counts |
| Dos2xListing.EveryRunIsListed | tools/Dos2xUtils.cpp:991-1110 | after any run `GetDos2Directory` gives for every directory the free sectors and in order the status, size, start and name of every entry; nothing more, but in a root directory from 56 entries on what its eighth sector held before |
| Dos2xRuns.SuccessIsRecorded | tools/Dos2xUtils.cpp:227-425 | an addition of any kind, file, block or subdirectory, is on record exactly if there was room for it, with its name or the first free form of it; otherwise nothing has changed |
| Dos2xBuilder.Dos2xUtils.SetDosFormat | tools/Dos2xUtils.cpp:1196-1226 | accepts exactly images of 128 or 256 bytes per sector with at least 720 sectors |
| Dos2xBuilder.Dos2xUtils.InitVTOC | tools/Dos2xUtils.cpp:1228-1354 | the image becomes the one of `InitVtocCorrect` |
| Dos2xBuilder.Dos2xUtils.MarkSectorsFree | tools/Dos2xUtils.cpp:1599-1657 | buffered marking, with a VTOC sector written back when the next begins, marks exactly the range |
| Dos2xBuilder.Dos2xUtils.GetNumberOfFreeSectors | tools/Dos2xUtils.cpp:1659-1677 | the sum of the stored counts; 0 before a format is set |
| Dos2xBuilder.Dos2xUtils.AllocSectors | tools/Dos2xUtils.cpp:1679-1815 | the loops over VTOC sectors, bytes and bits do what the specification of the request does |
| Dos2xBuilder.Dos2xUtils.WriteBufferToImage | tools/Dos2xUtils.cpp:427-470 | the chain of the specification, and whether it goes beyond sector 719 |
| Dos2xBuilder.Dos2xUtils.SetAtariDirectory | tools/Dos2xUtils.cpp:472-507 | writes the slot of one entry and keeps the others |
| Dos2xBuilder.Dos2xUtils.CheckNameUnique | tools/Dos2xUtils.cpp:629-638 | true exactly if no earlier entry has the name |
| Dos2xBuilder.Dos2xUtils.EnterName | tools/Dos2xUtils.cpp:528-566 | the renaming loop does what the specification of an entry does |
| Dos2xBuilder.Dos2xUtils.AddDataBlock | tools/Dos2xUtils.cpp:385-425 | image and names become those of the specification |
| Dos2xBuilder.Dos2xUtils.AddFile | tools/Dos2xUtils.cpp:227-339 | image and names become those of the specification |
| Dos2xBuilder.Dos2xUtils.AddDirectory | tools/Dos2xUtils.cpp:341-383 | image and names become those of the specification |
| Dos2xBuilder.Dos2xUtils.WriteAtariFileToDisk | tools/Dos2xUtils.cpp:712-776 | result and bytes written are those of the specification, for every start sector and image |
| Dos2xBuilder.Dos2xUtils.GetDos2Directory | tools/Dos2xUtils.cpp:991-1110 | lists a directory of the image as the specification does |
| Dos2xDirectory.ReadDirectory | tools/Dos2xUtils.cpp:991-1110 | the loops over sectors and slots on any image: free sectors from the stored counts, both of them on what looks like a DOS 2.5 disk, 16 slots to a sector on large disks that use them, entries up to the first slot never used, deleted ones left out |
| Dos2xDisks.Fill | tools/Dos2xUtils.cpp:227-470 | formatting an image and any sequence of additions through the methods, with one object for each directory, make it the disk of the run |
| Dos2xDisks.FetchFile | tools/Dos2xUtils.cpp:712-776 | a file is read from the image along a path of slots as the specification reads it |
| Dos2xDisks.FillAndFetch | tools/Dos2xUtils.cpp:227-776 | every file of any sequence of additions is read back from the image by its path |
| Dos2xDisks.FillAndList | tools/Dos2xUtils.cpp:991-1110 | the root directory of any disk that was filled through the methods is listed as it is |
| Dos2xEstimate.TwoRoundsAreStable | tools/Dos2xUtils.cpp:1936-1982 | the number of VTOC sectors of the second round is what the final size needs |
| Dos2xEstimate.RoomForContents | tools/Dos2xUtils.cpp:1947-1982 | the formatted disk has as many free sectors as were counted exactly if the size was not cut off at 65535 |
| Dos2xEstimate.RoomToSpare | tools/Dos2xUtils.cpp:1964-1976 | the estimated disk has room for the contents and, besides, for the sectors behind its last whole octet |
| Dos2xEstimate.JustEnough | tools/Dos2xUtils.cpp:1964-1982 | a disk larger than 720 sectors that is not cut off has 8k + 7 sectors and at most seven free ones more than were counted |
| Dos2xTrees.FoldersBounded | tools/Dos2xUtils.cpp:1702-1815 | on a MyDOS disk no run of additions holds more than (size + 1) / 8 - 47 subdirectories |
| Dos2xTrees.DiskHoldsTreeIff | tools/Dos2xUtils.cpp:227-425 | on a MyDOS disk with enough free sectors, a tree of files, blocks and subdirectories, in any order and of any depth, is stored completely exactly if it has at most that many subdirectories |
| Dos2xTrees.DiskHoldsFoldersIff | tools/Dos2xUtils.cpp:341-383 | empty subdirectories, in the root or in each other, are all made exactly if they are at most that many; no free count is needed |
| Dos2xTrees.EstimatedDiskHoldsTreeIff | tools/Dos2xUtils.cpp:1947-1982 | the disk estimated for a tree holds it exactly if its subdirectories are at most that many, the size not being cut off |
| Dos2xTrees.EstimatedDiskHoldsFoldersIff | tools/Dos2xUtils.cpp:1947-1982 | the disk estimated for empty subdirectories holds them all exactly if they are at most 43, for both sector lengths and cut-off sizes too |
| Dos2xTrees.EstimatedDiskHoldsFiles | tools/Dos2xUtils.cpp:1947-1982 | up to 64 files are all stored on the disk estimated for them |
| SioChecksum.ChecksumIsSum | driver/atarisio.c:1302-1313 | the end-around-carry checksum is 0 for sum 0, else (sum - 1) mod 255 + 1 |
| SioChecksum.ChecksumZero | driver/atarisio.c:1302-1313 | the checksum is 0 exactly if every byte is |
| SioChecksum.OneByteChanged | driver/atarisio.c:1302-1313 | changing one byte goes unnoticed exactly between 0 and 255 with another byte set |
| SioRing.CalculateChecksum | driver/atarisio.c:1302-1313 | the loop over the ring gives the checksum of the bytes it goes around |
| SioRing.IoBuffer.Put | driver/atarisio.c:1376-1391 | first in, first out; a full ring drops the new byte and keeps the old ones |
| SioRing.IoBuffer.SendBurst | driver/atarisio.c:1395-1431 | sends the oldest bytes, 16 of them or all |
| SioRing.IoBuffer.SetupSendFrame | driver/atarisio.c:2022-2061 | fails exactly for lengths 0 and from 8198 on; else the ring holds data and checksum, at any position |
| SioRing.IoBuffer.ReceiveBlock | driver/atarisio.c:1944-2004 | hands over the block exactly if enough bytes are there and the checksum is right, and consumes what it should |
| SioRing.KeptInTurn | driver/atarisio.c:1376-1391 | receiving in bursts is receiving at once |
| SioRing.FrameArrives | driver/atarisio.c:1914-2061 | a frame queued at any position, sent in bursts, received and read arrives byte for byte with its checksum accepted |
| SioSafety.QualityIsIsFrame | driver/atarisio.c:1497-1548 | the counters pass the quality check exactly if five clean characters with the right checksum came and nothing else |
| SioSafety.StepKeeps | driver/atarisio.c:1328-1622 | every interrupt pass and ioctl keeps the counters in agreement with what came over the line |
| SioRuns.HandOutsAreJustified | driver/atarisio.c:1452-1622 | in every run, a frame handed out is the five clean characters between one assertion and the next release of the command line, with right checksum, and still the latest |
| SioRuns.HandedOutOnce | driver/atarisio.c:2980-3005 | in every run, between two frames handed out lies a whole new frame on the line |
| SioRuns.GetSucceedsIff | driver/atarisio.c:2926-3005 | asking succeeds exactly if a whole frame was captured, nothing but characters came since, and it is at most 10 ms old |
| SioRuns.LetThroughIff | driver/atarisio.c:1788-1799 | in every run, an answer is let through exactly if the command line has come up as often since the mode was last set as it had when the frame was handed out |
| SioRuns.AnswersAreCurrent | driver/atarisio.c:1788-1799 | while the mode is not set, answers are let through exactly for the latest frame |
| SioRuns.JudgedRightlyIff | driver/atarisio.c:2808-2902 | after the mode was set, the answer is judged rightly exactly if the assertions since then are not as many as the number of the frame, and there are some or the line came up between handing out and setting |
| SioRuns.StaleAnswerPasses | driver/atarisio.c:2808-2902 | a run from any opened device in which an answer is let through although its frame is not the latest: mode set, frame in, handed out, mode set, line up |
| SioRuns.StatusRequestIsFrame | driver/atarisio.c:1497-1548 | a status request for drive 1 with its checksum is a frame, so there are such runs |
| SioSpeed.SpeedChangesIff | driver/atarisio.c:1433-1622 | in every run the speed changes exactly when the line goes down with automatic speed and another speed known, behind characters that are far off, or that are off and the speed was not switched at the frame before; or when the mode is set with another default; it becomes the other speed or the default |
| SioSpeed.PassSettles | driver/atarisio.c:1550-1622 | what an interrupt pass leaves of the speed and of the note that it was just switched, from what came over the line |
| SioSpeed.GoodFrameKeepsSpeed | driver/atarisio.c:1550-1562 | in every run the end of a whole clean frame keeps the speed and clears the note |
| SioSpeed.RunFollows | driver/atarisio.c:1328-1393 | in every run the receive buffer holds the clean characters that came outside of frames since it was flushed, as far as there is room; the missed count is the number of frames superseded unread |
| SioSpeed.FrameReturned | driver/atarisio.c:2980-3005 | what is handed out: the first four characters, when they were complete, and how many frames were missed; the buffer is flushed |
| SioDevice.AtariSioDev.ReceiveCharacters | driver/atarisio.c:1328-1393 | the loop over the characters refines the specification |
| SioDevice.AtariSioDev.CheckModemLinesBeforeReceive | driver/atarisio.c:1452-1475 | refines the step that opens a frame |
| SioDevice.AtariSioDev.CheckCommandFrameQuality | driver/atarisio.c:1497-1548 | the quality of the characters counted |
| SioDevice.AtariSioDev.ValidateCommandFrame | driver/atarisio.c:1550-1582 | validity and what becomes of the speed, as in `SpeedChangesIff` |
| SioDevice.AtariSioDev.CheckModemLinesAfterReceive | driver/atarisio.c:1584-1622 | refines the step that closes a frame |
| SioDevice.AtariSioDev.HandleInterrupt | driver/atarisio.c:1629-1662 | one pass of the handler is one step of the specification |
| SioDevice.FrameCrosses | driver/atarisio.c:1629-2061 | a frame queued by one device and moved by the interrupts of both, 16 characters at a time, arrives at the other byte for byte with its checksum accepted |
| SioDevice.AtariSioDev.TakeCommandFrame | driver/atarisio.c:2980-3005 | the critical section is one step of the specification |
| SioDevice.AtariSioDev.SetDeviceMode | driver/atarisio.c:2819-2902 | setting the mode is one step of the specification |
| SioDevice.AtariSioDev.CheckNewCommandFrame | driver/atarisio.c:1788-1799 | compares the serial numbers |
| Crc32.TableStep | tools/Crc32.cpp:46-59 | one table look-up is eight steps of the bitwise CRC |
| Crc32.ContinueInTurn | tools/Crc32.cpp:46-59 | continuing the CRC of one part with another gives the CRC of both |
| Crc32.GetCRCTable | tools/Crc32.cpp:25-44 | entry `i` is the bitwise remainder of `i` |
| Crc32.CalcCRC32 | tools/Crc32.cpp:46-59 | the table-driven CRC is the bitwise CRC of section 8 of RFC 1952, for every start value and input |
| Crc32.CheckValue | tools/Crc32.cpp:25-59 | the CRC of the nine digits 1 to 9, with both complements, is 0xCBF43926 |
| AtpChunks.ChunkOpens | tools/ChunkReader.cpp:57-87 | a closed chunk opens again, with its name, data and what follows |
| AtpSearch.AddSectorCorrect | tools/AtpTrack.cpp:38-50 | adding keeps a track sorted and adds exactly the sector |
| AtpSearch.GetSectorCorrect | tools/AtpTrack.cpp:52-90 | found exactly if the number is on the track, and no sector with that number passes sooner, duplicates included |
| AtpRoundTrip.AddingIsStable | tools/AtpTrack.cpp:38-50 | while all positions are 0, a sector goes behind all others |
| AtpRoundTrip.ReadImageOk | tools/AtpImage.cpp:268-453 | whatever file is read, the image is well formed and sorted |
| AtpRoundTrip.RoundTripIff | tools/AtpImage.cpp:192-453 | reading what was written gives tracks, densities, protection, sectors, statuses, positions and lengths back exactly if the image is well formed |
| AtpBytes.FileBytes | tools/AtpImage.cpp:192-266 | the file of an image with t tracks and n sectors: names and lengths of the nested chunks, the CRC of the image part, and 56 + 36t + 153n bytes in all |
| AtpBytes.TrackBytes | tools/AtpTrack.cpp:167-206 | the bytes of a track: number, number of sectors, 0 for FM or 1 for MFM |
| AtpBytes.TrackTimingBytes | tools/AtpTrack.cpp:268-290 | the bytes of the timing of a track |
| AtpBytes.SectorBytes | tools/AtpSector.cpp:111-123 | the bytes of a sector: number, length, status and data |
| AtpStreams.ChunkWriter.AppendBlock | tools/ChunkWriter.cpp:113-123 | appends to an open chunk and grows the buffer when needed; a closed one is left alone |
| AtpStreams.ChunkWriter.CloseChunk | tools/ChunkWriter.cpp:58-74 | fills in the length; closing twice fails |
| AtpStreams.ChunkWriter.CalculateCRC32 | tools/ChunkWriter.cpp:137-142 | the CRC of the data, in one go |
| AtpStreams.ChunkReader.ReadBlock | tools/ChunkReader.cpp:126-136 | reads inside the chunk or fails without moving |
| AtpStreams.ChunkReader.OpenChunk | tools/ChunkReader.cpp:57-87 | opens the next chunk and moves behind it, or fails without moving |
| AtpStreams.ChunkReader.CalculateCRC32 | tools/ChunkReader.cpp:149-187 | the CRC in pieces of 1024 bytes is that of the whole chunk |
| AtpTracks.BuildSectorChunk | tools/AtpSector.cpp:111-123 | the chunk of the specification |
| AtpTracks.InitFromSectorChunk | tools/AtpSector.cpp:125-165 | the sector of the specification, or failure |
| AtpTracks.AtpTrack.AddSector | tools/AtpTrack.cpp:38-50 | the search loop inserts where the specification does |
| AtpTracks.AtpTrack.GetSector | tools/AtpTrack.cpp:52-90 | the circular loop finds what the specification does, and ends |
| AtpTracks.AtpTrack.BuildTrackChunk | tools/AtpTrack.cpp:167-206 | the chunk of the specification |
| AtpTracks.AtpTrack.InitFromTRAKChunk | tools/AtpTrack.cpp:208-266 | the track of the specification, or failure |
| AtpTracks.AtpTrack.BuildTrackTimingChunk | tools/AtpTrack.cpp:268-290 | the chunk of the specification |
| AtpTracks.AtpTrack.SetTimingInformationFromTTI1Chunk | tools/AtpTrack.cpp:292-355 | the timings of the specification, or failure |
| AtpImages.AtpImage.BuildHeaderChunk | tools/AtpImage.cpp:148-162 | the chunk of the specification |
| AtpImages.AtpImage.WriteImageToFile | tools/AtpImage.cpp:192-266 | the file of the specification |
| AtpImages.AtpImage.ReadImageFromFile | tools/AtpImage.cpp:268-453 | succeeds exactly if the file can be read, on any file, with the image found in it |
| AtpImages.WriteThenRead | tools/AtpImage.cpp:192-453 | writing a well-formed image and reading it into any object gives it back |
| DiFormat.RoundTripIff | tools/AtrMemoryImage.cpp:777-884 | layout and data come back exactly with at most 255 tracks and 255 sides |
| DiFormat.FileStarts | tools/AtrMemoryImage.cpp:836-856 | the 22 bytes in front of the map, literally |
| DiFormat.CalculateDiSectorChecksum | tools/AtrMemoryImage.cpp:586-597 | the same value as the checksum of the driver |
| DiFormat.WriteImageToDiFile | tools/AtrMemoryImage.cpp:777-884 | header, sector map and the sectors that are not empty |
| DiFormat.ReadImageFromDiFile | tools/AtrMemoryImage.cpp:599-775 | succeeds exactly if the file can be read, on any file; sectors that are not stored are zero |
| DiFormat.WriteThenRead | tools/AtrMemoryImage.cpp:599-884 | saving and loading gives layout and data back |
| AtrFormat.HeaderRoundTripIff | tools/AtrImage.cpp:198-339 | a header gives the format back exactly if the layout is the guessed one and it is not double density with two or three sectors |
| AtrFormat.StandardHeaders | tools/AtrImage.cpp:198-339 | the header of each standard format, literally; it gives the format and the protection back |
| AtrFormat.Sio2pcHeader | tools/AtrImage.cpp:198-283 | a double density disk saved with three full boot sectors is read as the standard disk |
| AtrFormat.RoundTripIff | tools/AtrMemoryImage.cpp:291-414 | the same for files, with the data and the write protection |
| AtrFormat.CreateATRHeaderFromFormat | tools/AtrImage.cpp:285-339 | the header of the specification; fails exactly for an empty format |
| AtrFormat.SetFormatFromATRHeader | tools/AtrImage.cpp:198-283 | the format of the specification, or failure |
| AtrFormat.ReadImageFromAtrFile | tools/AtrMemoryImage.cpp:291-359 | succeeds exactly if the header is legal; a short file is filled up with zeros |
| AtrFormat.WriteThenRead | tools/AtrMemoryImage.cpp:291-414 | saving and loading gives layout, protection and data back |
| FskCode.ByteToFsk | tools/MiscUtils.cpp:393-412 | the loop over the bits appends the run lengths of the frame |
| FskCode.FrameBits | tools/MiscUtils.cpp:393-412 | the ten bits of the frame of a byte |
| FskCode.ByteExpands | tools/MiscUtils.cpp:393-412 | an even number of durations that sum to ten bit times and expand to start bit, data bits lowest first, stop bit |
| FskCode.AllBytesIff | tools/MiscUtils.cpp:393-412 | right for all bytes exactly if nine bit times fit into 16 bits |
| FskCode.DataBlockToFsk | tools/MiscUtils.cpp:414-434 | fails exactly for an empty block |
| FskCode.BlockExpands | tools/MiscUtils.cpp:414-434 | a block of any length stays in phase |
| FskCode.SendFskData | driver/atarisio.c:2580-2593 | the driver's alternation, beginning with break, is the expansion of the durations |
| FskCode.BlockDecodes | tools/MiscUtils.cpp:414-434 | sampling the line in the middle of each bit gives the block back |
| FskCode.SendBlock | driver/atarisio.c:2566-2630 | a block encoded and sent is decoded to the block |

## Left out

- DcmCodecs.DCMCodec.Save: requires sectors of at most 256 bytes, because a 180k label is also given to other layouts of 18 * 40 sectors (tools/AtrImage.h:222-224) whose sectors do not fit the codec's buffers.
- DcmCodecs.DCMCodec.DecodeRec44: an offset beyond the sector makes the source write outside its buffer; the model fails instead.
- DcmCodecs.DCMCodec.Load: fails on a type 44 offset beyond the sector, like `DecodeRec44`; archives of several files are accepted by their first header byte only, as in the source; what follows the last pass is not looked at.
- DiFormat.WriteImageToDiFile: requires 128 or 256 bytes per sector, since longer sectors overflow the buffer of the source.
- DiFormat.ReadImageFromDiFile: a double density image with two sectors is refused, where the source writes beyond the image; after a failure nothing is said about the image.
- AtrImage.MemoryImage.CreateImageOfLayout: for a wrapped product, or two sectors of double density, it says only what bytes there are; reading and writing such an image is not part of this model.
- AtpImages.AtpImage.ReadImageFromFile: after a failure nothing is said about the object.
- AtpTracks.AtpTrack.GetSector: gives the index of the sector; that the source hands out a shared object which can then be changed is not captured.
- Dos2xBuilder.Dos2xUtils.AllocSectors: the one loop of the source with its three kinds of request is three loops here.
- Dos2xBuilder.Dos2xUtils.AddFile: takes any 11 bytes without NUL as the name; building it from a host file name (`BuildAtariName`) is not part of this model, nor is reading the host file.
- Dos2xBuilder.Dos2xUtils.InitVTOC: the boot sectors are three arbitrary sectors; the boot code tables are not part of this model. The image is not write protected, since the source ignores the results of its writes.
- Dos2xBuilder.Dos2xUtils.WriteAtariFileToDisk: the file is written without errors, and the visited sectors are an array of booleans instead of a packed bitmap.
- SioRuns.AnswersAreCurrent: serial numbers and counters are unbounded; the 32-bit wrap-around of the source is not captured.
- SioDevice.AtariSioDev.HandleInterrupt: UART registers, FIFO resets, wait queues, delays and failing copies to user space are left out; setting the speed always succeeds.
- Files always open and never fill the disk; compression by zlib is the identity.
- File names, the "changed" flag of images, messages and logging.
- Dos2xBuilder.Dos2xUtils.GetDos2Directory: gives what is listed; the text of an entry and the dump of the raw directory are not part of this model.
- `CreatePiconame`, and the notifications of a live virtual drive.
- XFD images: the size is guessed, and an odd number of single density sectors is read as double density.
- The handlers of single SIO commands, device and cassette file management, the user interface, and the kernel module around the driver core.
- The baud rate tables and the search for divisors.
