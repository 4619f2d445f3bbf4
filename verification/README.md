# Models of HCE-LABORATORY

HCE-LABORATORY talks to NFC readers over USB serial chips and speaks the protocols of smart cards. This project models
the low-level code underneath it, in Dafny, and proves what that code is for:

- the data path, the rate arithmetic and the EEPROM image of libftdi (`FtdiRead`, `FtdiAsync`, `FtdiStream`, `FtdiBaud`,
  `EepromImage`, `EepromRoundTrip`, `Eeprom`);
- the tar reader and writer microtar (`TarHeader`, `Tar`, `TarArchive`);
- AES and DES, triple DES, and cipher block chaining over buffers (`AesTables`, `Galois`, `Aes`, `AesKeys`, `DesTables`,
  `Des`, `TripleDes`, `Cbc`, `CipherAes`, `CipherDes`);
- CMAC and the CRCs, with the buffers they work in (`Cmac`, `Crc`, `CrcTables`, `CrcDetection`, `Division`, `Words`,
  `Bits`, `Bytes`, `ByteBuffer`);
- the executor and its queues (`BlockingQueue`, `Executor`).

`dafny verify dfyconfig.toml` checks all of it.

## How the code is modelled

Code that works in place is modelled in place: methods with loops over arrays and classes with the fields of the
original, each proved against a function on values. What the code is for is then proved about those functions: round
trips, conservation, inverses, agreement with a definition that was written down independently.

- A USB transfer is an arbitrary sequence of bytes that fits the read buffer, with an error code if it failed. A tar
  stream is the sequence of bytes of the file. What the device answers, and what a user's callback returns, are
  parameters.
- Machine words whose bits are permuted, as in DES, are sequences of booleans with the most significant bit first.
  Shifting a word left and setting its lowest bit is appending to such a sequence. Bytes and check registers are
  bit-vectors. Rates and divisors are integers, with the ranges that rule out overflow stated.
- A copied `Buffer` shares the memory of the original: two `ByteBuffer` objects with the same array. So it can be said
  which operations write to memory that the caller can see.
- `aes_AddRoundKey` is modelled byte by byte; the variant that works on four bytes at a time does the same.
- The executor is a state machine. A step is one access to the shared flag or to a queue, or the start or the end of a
  job, and the steps of the threads, of the callers of `submit` and of `terminate` interleave in any way.
- Where the source demands something of its callers by an assertion, the model requires it.

## Where the code and its promises part

- The search for the divisor of the AM chip misses a better one exactly for the rates 2250001 to 2666666
  (`FtdiBaud.ToClkbitsAM`).
- A USB transfer that fails may have brought bytes, and the reader drops them (`FtdiRead.FailedReadLoses`). A call that
  fails after it has put bytes into the caller's buffer returns the error alone, and nothing tells the caller of them
  (`FtdiRead.BreakingOffHides`). Nothing is lost to the callers exactly when neither happens
  (`FtdiRead.CallersLoseNothing`). When the device refuses an asynchronous read, the bytes that were left over have gone
  into the buffer of a request that is reported as not made (`FtdiAsync.Submit`).
- The documentation of the streaming reader promises to transfer data until an error occurs or the callback returns a
  non-zero value, and to return either of them. A refusal only gives one transfer up, and only the answer for its last
  packet counts, so blocks may follow it unless no more than one packet is in flight (`FtdiStream.RefusalEndsExactly`).
  An error may be overwritten unless no more than one transfer is in flight (`FtdiStream.ErrorEndsExactly`). The value
  of the callback is not returned (`FtdiStream.ReturnValue`), and its answers for the progress are ignored
  (`FtdiStream.ProgressIgnored`).
- A last packet of one byte is passed on with the length -1 (`FtdiStream.StreamAgrees`).
- The size check of the EEPROM strings counts characters in a byte, so a string of 256 characters or more passes it and
  is cut (`EepromRoundTrip.StringsWhole`, `EepromRoundTrip.LongNameCut`). Decoding an image of an FT232BM sets the chip
  to unknown, after which building it again fails (`Eeproms.Eeprom.BuildAndDecode`).
- A read of nothing after the last byte of a tar entry starts the entry again: the bytes that were read are right in any
  case, but the cursor is back on the header exactly when the entry is empty or the last read got a byte
  (`TarArchive.ReadEntry`, `TarArchive.ReadNothing`).
- `CipherDES` writes the vector back into the caller's memory, and so `CMAC` under triple DES changes the vector that it
  takes by constant reference (`Cmacs.CmacDes`); `CipherAES` replaces the vector by a new buffer and does not.
- The truncated CMAC is commented as the left half of the code and returns every second byte of it
  (`Cmacs.LeftHalfExactly`, `Cmacs.NotTheLeftHalf`).
- The CRC of no bytes at all is the complement of the start value and not the start value (`Crc.Ccitt16`).
- A job that was accepted while `terminate` was running may be queued after it has returned
  (`Executors.LeftBehindExactly`). It is never taken, and stays until the next `terminate`, that of the destructor for
  example, drops it (`Executors.NeverTaken`, `Executors.NextTerminateDrops`).
- `terminate` may wait for a task it never asked to end (`Executors.MayNotAsk`). When it finds the list empty, that is
  out of the question exactly when no thread has a job that it has not listed, and none is about to look for a job,
  unless there is none and no caller is about to add one (`Executors.EscapeAtJoin`). The pool size is not used.

## Model

| member | source | states |
|---|---|---|
| FtdiRead.ReadConservation | src/hce-lib/lib-ext/ftdi1/src/main/c/ftdi.c:2007-2119 | for any series of calls of any sizes and any answers of the device: what goes into the callers' buffers, followed by what is left in the read buffer, is what was there before followed by the transfers that did not fail, without the first two bytes of each packet; so it is all that arrived if and only if no failed transfer brought more than two bytes |
| FtdiRead.ReportedExactly | src/hce-lib/lib-ext/ftdi1/src/main/c/ftdi.c:2007-2119 | the return codes account for every byte in the callers' buffers if and only if no call broke off: none met a failed transfer with bytes waiting before it or other transfers behind it |
| FtdiRead.CallersLoseNothing | src/hce-lib/lib-ext/ftdi1/src/main/c/ftdi.c:2048-2050 | what the return codes tell of and what is kept is all that arrived if and only if no failed transfer brought more than two bytes and no call broke off |
| FtdiRead.BreakingOffHides | src/hce-lib/lib-ext/ftdi1/src/main/c/ftdi.c:2048-2050 | a byte arrives, the next transfer times out with nothing: the byte is in the buffer and no return code tells of it |
| FtdiRead.NoFailureNoneBroken | src/hce-lib/lib-ext/ftdi1/src/main/c/ftdi.c:2007-2119 | while no transfer fails no call breaks off, and every byte is accounted for |
| FtdiRead.ReadConserves | src/hce-lib/lib-ext/ftdi1/src/main/c/ftdi.c:2007-2119 | one call conserves the stream of the transfers that did not fail, and counts the bytes handed out when none did |
| FtdiRead.LostExactly | src/hce-lib/lib-ext/ftdi1/src/main/c/ftdi.c:2048-2050 | what failed transfers brought is what is lost, for the code returns without looking at it: the payload regarded is that of everything that arrived exactly when no failed transfer brought any |
| FtdiRead.FailedReadLoses | src/hce-lib/lib-ext/ftdi1/src/main/c/ftdi.c:2048-2050 | a transfer that times out with one byte of payload: the byte arrived and no call hands it out or keeps it |
| FtdiRead.PayloadAt | src/hce-lib/lib-ext/ftdi1/src/main/c/ftdi.c:2052-2079 | which bytes of a transfer survive, and where: byte k of packet q, for k at least 2, in order |
| FtdiRead.PayloadLength | src/hce-lib/lib-ext/ftdi1/src/main/c/ftdi.c:2074-2077 | the two ways in which the new length is computed give the length of the payload |
| FtdiRead.Context.SlidePacket | src/hce-lib/lib-ext/ftdi1/src/main/c/ftdi.c:2065-2073 | one overlapping move puts the payload of the next packet right behind that of the packets before and leaves the later packets as they were |
| FtdiRead.Context.SlidePackets | src/hce-lib/lib-ext/ftdi1/src/main/c/ftdi.c:2065-2068 | after the loop the payloads of all full packets are contiguous |
| FtdiRead.Context.StripStatus | src/hce-lib/lib-ext/ftdi1/src/main/c/ftdi.c:2052-2078 | in-place compaction: behind the offset stands exactly the payload of the transfer |
| FtdiRead.Context.Deliver | src/hce-lib/lib-ext/ftdi1/src/main/c/ftdi.c:2085-2114 | what fits is copied, the rest stays in the read buffer at the new offset |
| FtdiRead.Context.ReadData | src/hce-lib/lib-ext/ftdi1/src/main/c/ftdi.c:2007-2119 | the call refines the specification of a read, for every packet size of at least 3; the exit with -127 is dead code; a packet size of 0 is refused with -1 |
| FtdiAsync.Submit | src/hce-lib/lib-ext/ftdi1/src/main/c/ftdi.c:1805-1871 | submission serves the request from the read buffer when it can, and otherwise hands out all of it and waits; NULL without memory or when the device refuses, and in the latter case what was left over is in the buffer of the caller and nowhere else |
| FtdiAsync.Callback | src/hce-lib/lib-ext/ftdi1/src/main/c/ftdi.c:1607-1692 | a completed transfer is stripped, delivered and carried over; how the transfer ends decides whether the chain goes on |
| FtdiAsync.Drive | src/hce-lib/lib-ext/ftdi1/src/main/c/ftdi.c:1607-1692 | submission and the chain of callbacks do what the specification of the asynchronous read says |
| FtdiAsync.AsyncAgrees | src/hce-lib/lib-ext/ftdi1/src/main/c/ftdi.c:1607-1692 | fed with the same transfers, the asynchronous reader delivers the same bytes and leaves the same bytes over as the synchronous one |
| FtdiStream.StreamState.ReadStreamCb | src/hce-lib/lib-ext/ftdi1/src/main/c/ftdi_stream.c:68-116 | of a completed transfer the callback gets one block per packet, at its place and with its length, the count of bytes grows by the sum of the lengths, and the last answer decides between giving the transfer up, which leaves the result alone, and submitting it again, which sets it; one that did not complete sets the error and is neither passed on nor submitted |
| FtdiStream.StreamAgrees | src/hce-lib/lib-ext/ftdi1/src/main/c/ftdi_stream.c:83-99 | the blocks, put together, are the payload of the transfer; no length is negative, and the count is right, exactly when the last packet is not one byte long |
| FtdiStream.StreamState.Poll | src/hce-lib/lib-ext/ftdi1/src/main/c/ftdi_stream.c:251-287 | what the loop does when the library returns: an error is taken over, no activity ends the stream with 1, and the answer for the progress is not looked at |
| FtdiStream.StreamState.ReadStream | src/hce-lib/lib-ext/ftdi1/src/main/c/ftdi_stream.c:240-288 | the loop, through any sequence of events, takes the stream where the specification says |
| FtdiStream.LastAnswerCounts | src/hce-lib/lib-ext/ftdi1/src/main/c/ftdi_stream.c:94-109 | a non-zero answer frees the transfer, whatever the other answers are, if and only if it is one packet at most; the answers 1 and 0 do not free it |
| FtdiStream.RefusalEndsExactly | src/hce-lib/lib-ext/ftdi1/src/main/c/ftdi_stream.c:133-137 | the promise that a non-zero value ends the stream: in every run no block is passed on after a refused one, if and only if there are no transfers, no packets in them, or one transfer of one packet |
| FtdiStream.EndsWithoutTransfers | src/hce-lib/lib-ext/ftdi1/src/main/c/ftdi_stream.c:251-288 | once the device has no transfer, as when all were refused, the loop is left when the library returns for the second time at the latest |
| FtdiStream.OtherGoesOn | src/hce-lib/lib-ext/ftdi1/src/main/c/ftdi_stream.c:100-109 | with two transfers, for any more and any size: a block is refused, and the next transfer is passed on all the same |
| FtdiStream.NextPacketGoesOn | src/hce-lib/lib-ext/ftdi1/src/main/c/ftdi_stream.c:83-109 | with two packets to a transfer: the first is refused, the second is passed on and the transfer is submitted again |
| FtdiStream.ErrorEndsExactly | src/hce-lib/lib-ext/ftdi1/src/main/c/ftdi_stream.c:133-137 | the promise that an error ends the stream: in every run the loop is left when the library returns after an error, if and only if there is one transfer at most |
| FtdiStream.ErrorForgotten | src/hce-lib/lib-ext/ftdi1/src/main/c/ftdi_stream.c:107-115 | with two transfers the error of one is overwritten when the other is submitted again, and the stream goes on |
| FtdiStream.ReturnValue | src/hce-lib/lib-ext/ftdi1/src/main/c/ftdi_stream.c:247-301 | the caller gets an error that the library reported or 1, never a value of the callback for its own sake; without errors always 1 |
| FtdiStream.FiveBecomesOne | src/hce-lib/lib-ext/ftdi1/src/main/c/ftdi_stream.c:136-137 | the callback refuses with 5, and the caller gets 1 |
| FtdiStream.ProgressIgnored | src/hce-lib/lib-ext/ftdi1/src/main/c/ftdi_stream.c:284 | without the calls for the progress the same blocks are passed on with the same answers, and the stream ends at the same point with the same result |
| FtdiStream.ProgressEndsExactly | src/hce-lib/lib-ext/ftdi1/src/main/c/ftdi_stream.c:284 | no block is passed on after a non-zero answer for the progress, in every run, only if there are never any blocks |
| FtdiStream.GoesOnAfterProgress | src/hce-lib/lib-ext/ftdi1/src/main/c/ftdi_stream.c:284 | the progress is answered with 1, and a block follows |
| FtdiBaud.TwoTriesSuffice | src/hce-lib/lib-ext/ftdi1/src/main/c/ftdi.c:1238-1290 | the two divisors that are tried surround the exact quotient, and no supported divisor does better |
| FtdiBaud.ToClkbitsAM | src/hce-lib/lib-ext/ftdi1/src/main/c/ftdi.c:1225-1305 | the divisor is a supported one, its code reads back as the divisor, and it is the best of all supported ones if and only if the rate is not in 2250001..2666666 |
| FtdiBaud.SmallDivisors | src/hce-lib/lib-ext/ftdi1/src/main/c/ftdi.c:1247-1258 | the rates at which the steps from 8 to 16 go wrong, exactly |
| FtdiBaud.NearestBound | src/hce-lib/lib-ext/ftdi1/src/main/c/ftdi.c:1352-1368 | the unclamped divisor is within half a step of the exact one |
| FtdiBaud.NoOverflow | src/hce-lib/lib-ext/ftdi1/src/main/c/ftdi.c:1352-1368 | with the clocks in use the divisor is never 0x20000, so the field of 14 bits never spills over |
| FtdiBaud.EncodeDecode | src/hce-lib/lib-ext/ftdi1/src/main/c/ftdi.c:1333-1366 | whole part and fraction code decode to the divisor they were made of |
| FtdiBaud.Fractional | src/hce-lib/lib-ext/ftdi1/src/main/c/ftdi.c:1352-1368 | the clamped divisor, its code and the rounded rate |
| FtdiBaud.ToClkbits | src/hce-lib/lib-ext/ftdi1/src/main/c/ftdi.c:1331-1368 | the three shortest divisors have their own codes, the others are the nearest eighth |
| FtdiBaud.ConvertBaudrate | src/hce-lib/lib-ext/ftdi1/src/main/c/ftdi.c:1375-1425 | value and index decode to the divisor and the base clock; -1 for a rate that is not positive |
| FtdiBaud.FractionalTolerable | src/hce-lib/lib-ext/ftdi1/src/main/c/ftdi.c:1465-1470 | rounding to eighths and to whole rates stays within the tolerance |
| FtdiBaud.AcceptedExactly | src/hce-lib/lib-ext/ftdi1/src/main/c/ftdi.c:1465-1470 | the exact set of rates that pass the check of 5%: 175..1575000, 2000000..2100000 and 3000000..3150000, and four times the upper ones for the H chips |
| FtdiBaud.AmAcceptedExactly | src/hce-lib/lib-ext/ftdi1/src/main/c/ftdi.c:1465-1470 | the exact set of rates that the AM chip accepts: 175..630000, 634921..787500, 816327..1050000, 1142858..1260000, 1269841..1575000 and 2857143..3150000; the rates for which a better divisor is missed are refused with any |
| FtdiBaud.Port.SetBaudrate | src/hce-lib/lib-ext/ftdi1/src/main/c/ftdi.c:1448-1479 | a rate is refused exactly outside the set of the chip, the AM chip included; four times the rate in bitbang mode; the field is updated only on success |
| EepromImage.AreaFits | src/hce-lib/lib-ext/ftdi1/src/main/c/ftdi.c:2945-3062 | strings that pass the size check lie above the last header byte of the chip and below the checksum, and do not wrap, in parts of 128 and 256 bytes |
| EepromImage.WrapAt | src/hce-lib/lib-ext/ftdi1/src/main/c/ftdi.c:3060-3068 | the masked running offset is a plain offset from the first string |
| EepromImage.SealedAccepted | src/hce-lib/lib-ext/ftdi1/src/main/c/ftdi.c:3467-3494 | the checksum that is stored is the one that is computed when reading |
| EepromImage.SpoiledIsRefused | src/hce-lib/lib-ext/ftdi1/src/main/c/ftdi.c:3668-3691 | an image in which one 16-bit word was changed, the checksum included, is refused |
| EepromImage.TypeRoundTrip | src/hce-lib/lib-ext/ftdi1/src/main/c/ftdi.c:2853-2894 | a channel type is recovered when the chip knows it, and is 0 otherwise |
| EepromImage.GroupRoundTrip | src/hce-lib/lib-ext/ftdi1/src/main/c/ftdi.c:3252-3286 | drive strength capped at 16 mA, Schmitt trigger and slew rate are recovered from their four bits |
| EepromRoundTrip.CbusPair | src/hce-lib/lib-ext/ftdi1/src/main/c/ftdi.c:2832-2849 | two CBUS functions share a byte; those above the last known one come back as tristate |
| EepromRoundTrip.StringsBack | src/hce-lib/lib-ext/ftdi1/src/main/c/ftdi.c:3601-3666 | the three strings are found through the offsets and lengths in the header |
| EepromRoundTrip.CommonRecovered | src/hce-lib/lib-ext/ftdi1/src/main/c/ftdi.c:2988-3119 | ids and release number modulo 65536, power in steps of 2 mA modulo 512, flags and strings are recovered for every chip |
| EepromRoundTrip.ChipRecovered | src/hce-lib/lib-ext/ftdi1/src/main/c/ftdi.c:3123-3433 | the fields of the FT232BM, FT2232C, FT2232H, FT4232H and FT232H are recovered |
| EepromRoundTrip.RoundTrip | src/hce-lib/lib-ext/ftdi1/src/main/c/ftdi.c:3548-3806 | the image is accepted, its strings lie inside it, and decoding recovers all of this whatever the decoder held before |
| EepromRoundTrip.StringsWhole | src/hce-lib/lib-ext/ftdi1/src/main/c/ftdi.c:2938-2943 | the strings come back whole if and only if each is shorter than 256 characters, because the size check counts in a byte |
| EepromRoundTrip.LongNameCut | src/hce-lib/lib-ext/ftdi1/src/main/c/ftdi.c:2938-2943 | a manufacturer of 256 characters passes the check, and an empty one comes back |
| Eeproms.Eeprom.Assemble | src/hce-lib/lib-ext/ftdi1/src/main/c/ftdi.c:2988-3433 | the writes, in their order, put every byte of the image in its place |
| Eeproms.Eeprom.PutString | src/hce-lib/lib-ext/ftdi1/src/main/c/ftdi.c:3064-3098 | a string goes in at the masked running offset, two bytes a character |
| Eeproms.Eeprom.Sum | src/hce-lib/lib-ext/ftdi1/src/main/c/ftdi.c:3467-3491 | the loop over the words computes the rotating checksum |
| Eeproms.Eeprom.Build | src/hce-lib/lib-ext/ftdi1/src/main/c/ftdi.c:2910-3498 | error -6 without a chip, -1 when the strings do not fit, both without touching the buffer; otherwise the image, and the room that is left |
| Eeproms.Eeprom.Decode | src/hce-lib/lib-ext/ftdi1/src/main/c/ftdi.c:3548-3806 | the decoded configuration, or -1 with the common fields already overwritten |
| Eeproms.Eeprom.BuildAndDecode | src/hce-lib/lib-ext/ftdi1/src/main/c/ftdi.c:3693-3697 | building and then decoding recovers the configuration, but on the FT232BM forgets the chip, after which a build fails |
| TarHeader.ScanField | src/hce-lib/lib-ext/microtar/src/main/c/microtar.c:106-118 | a printed octal number is scanned back, whatever follows its terminator |
| TarHeader.HeaderRoundTrip | src/hce-lib/lib-ext/microtar/src/main/c/microtar.c:100-150 | the reader gets back every field of a header that fits its fields, and accepts the checksum |
| TarHeader.ComputeChecksum | src/hce-lib/lib-ext/microtar/src/main/c/microtar.c:49-65 | the loop sums the record with blanks in the place of the checksum |
| TarHeader.HeaderToRaw | src/hce-lib/lib-ext/microtar/src/main/c/microtar.c:130-150 | the record is the specified one, byte by byte |
| TarHeader.RawToHeader | src/hce-lib/lib-ext/microtar/src/main/c/microtar.c:100-127 | an empty record, a wrong checksum and a good record are told apart |
| Tar.Tar.ReadHeader | src/hce-lib/lib-ext/microtar/src/main/c/microtar.c:341-368 | the header at the cursor, with the cursor put back in front of it |
| Tar.Tar.Next | src/hce-lib/lib-ext/microtar/src/main/c/microtar.c:285-302 | the cursor moves by the header and the data rounded up to a record |
| Tar.Tar.ReadData | src/hce-lib/lib-ext/microtar/src/main/c/microtar.c:370-416 | reading starts behind the header, stops short of no data, and puts the cursor back on the header after the last byte |
| Tar.Tar.WriteData | src/hce-lib/lib-ext/microtar/src/main/c/microtar.c:461-481 | data is written at the cursor, and the last piece is padded to a whole record |
| Tar.Tar.Finalize | src/hce-lib/lib-ext/microtar/src/main/c/microtar.c:483-487 | two empty records are written |
| TarArchive.WriteEntry | src/hce-lib/lib-ext/microtar/src/main/c/microtar.c:418-481 | a header and its data in any pieces put one whole record behind the archive |
| TarArchive.WriteArchive | src/hce-lib/lib-ext/microtar/src/main/c/microtar.c:418-487 | a finished archive is its records, in order, and two empty ones |
| TarArchive.ReadPiece | src/hce-lib/lib-ext/microtar/src/main/c/microtar.c:370-416 | a read of any size inside an entry returns the bytes that come next |
| TarArchive.ReadNothing | src/hce-lib/lib-ext/microtar/src/main/c/microtar.c:370-416 | a read of nothing at the header of an entry that is not empty steps behind the header, and does no harm to an empty one |
| TarArchive.ReadOn | src/hce-lib/lib-ext/microtar/src/main/c/microtar.c:370-416 | one more read of a series, from wherever the reads before left the cursor |
| TarArchive.ReadEntry | src/hce-lib/lib-ext/microtar/src/main/c/microtar.c:370-416 | reads that add up to the size of an entry get its bytes, however they are cut; they leave the cursor on the header if and only if the entry is empty or the last of them is not a read of nothing, and behind the header otherwise |
| TarArchive.ArchiveStands | src/hce-lib/lib-ext/microtar/src/main/c/microtar.c:285-302 | walking by rounded sizes meets every record at its start |
| TarArchive.ArchiveEnds | src/hce-lib/lib-ext/microtar/src/main/c/microtar.c:341-368 | behind the last entry the reader finds the null record |
| TarArchive.Walk | src/hce-lib/lib-ext/microtar/src/main/c/microtar.c:285-416 | header, data in pieces of which the last gets the last byte, next: every entry in order, and then the null record error |
| TarArchive.RoundTrip | src/hce-lib/lib-ext/microtar/src/main/c/microtar.c:285-487 | what was written with any cuts is read back with any cuts that end with the last byte of each file: the same headers and bytes, in order, and then the end |
| TarArchive.Find | src/hce-lib/lib-ext/microtar/src/main/c/microtar.c:304-339 | the first entry with the name, with the cursor on its header, or the error exactly when no entry has the name |
| TarArchive.FindAndRead | src/hce-lib/lib-ext/microtar/src/main/c/microtar.c:304-416 | a file that was found is read whole from its first byte |
| AesTables.SBoxInverts | src/hce-lib/lib-ext/microaes/src/main/c/aes.c:16-52 | the second table undoes the first, for all 256 bytes |
| AesTables.SBoxIsInverse | src/hce-lib/lib-ext/microaes/src/main/c/aes.c:16-34 | every entry of the table is the inverse in the field followed by the affine transformation, section 5.1.1 of FIPS 197 |
| Galois.MulLinear | src/hce-lib/lib-ext/microaes/src/main/c/aes.c:319-330 | multiplication distributes over exclusive or in its second factor |
| Galois.MulLeftLinear | src/hce-lib/lib-ext/microaes/src/main/c/aes.c:319-330 | and in its first factor |
| Galois.MulDouble | src/hce-lib/lib-ext/microaes/src/main/c/aes.c:10-11 | multiplying a doubled or trebled byte is multiplying by the doubled or trebled factor: the macros agree with the function |
| Galois.GaloisFieldMultiply | src/hce-lib/lib-ext/microaes/src/main/c/aes.c:319-330 | the loop over the bits computes the product |
| Galois.MixInverts | src/hce-lib/lib-ext/microaes/src/main/c/aes.c:260-294 | the matrices of the two column operations are inverse to each other |
| Aes.SubBytes | src/hce-lib/lib-ext/microaes/src/main/c/aes.c:192-199 | every byte is replaced by its entry, in place |
| Aes.InvSubBytes | src/hce-lib/lib-ext/microaes/src/main/c/aes.c:201-208 | every byte is replaced by its entry in the inverse table, in place |
| Aes.ShiftRows | src/hce-lib/lib-ext/microaes/src/main/c/aes.c:210-233 | row i turns left by i places, in place |
| Aes.InvShiftRows | src/hce-lib/lib-ext/microaes/src/main/c/aes.c:235-258 | row i turns right by i places, in place |
| Aes.MixColumnsInPlace | src/hce-lib/lib-ext/microaes/src/main/c/aes.c:260-276 | every column is multiplied by the matrix, in place |
| Aes.InvMixColumnsInPlace | src/hce-lib/lib-ext/microaes/src/main/c/aes.c:278-294 | every column is multiplied by the inverse matrix, in place |
| Aes.MixColumnsInverts | src/hce-lib/lib-ext/microaes/src/main/c/aes.c:260-294 | on whole blocks the inverse mixing undoes the mixing |
| Aes.AddRoundKey | src/hce-lib/lib-ext/microaes/src/main/c/aes.c:296-315 | a round key is added in place |
| Aes.Encrypt | src/hce-lib/lib-ext/microaes/src/main/c/aes.c:96-112 | the rounds of section 5.1 of FIPS 197 in place, for any number of rounds |
| Aes.Decrypt | src/hce-lib/lib-ext/microaes/src/main/c/aes.c:114-130 | the rounds of section 5.3 of FIPS 197 in place |
| Aes.Backwards | src/hce-lib/lib-ext/microaes/src/main/c/aes.c:114-130 | after i rounds of decryption the block is where encryption was i rounds before its end |
| Aes.RoundTrip | src/hce-lib/lib-ext/microaes/src/main/c/aes.c:96-130 | decryption undoes encryption for any round keys, any number of rounds and any block |
| AesKeys.RconIsPower | src/hce-lib/lib-ext/microaes/src/main/c/aes.c:54 | the ten round constants are the powers of x |
| AesKeys.ScheduleAt | src/hce-lib/lib-ext/microaes/src/main/c/aes.c:80-93 | the recurrence of section 5.2 of FIPS 197 at a position given by turn and cycle |
| AesKeys.Init | src/hce-lib/lib-ext/microaes/src/main/c/aes.c:73-94 | the running cycle counter fills the array with the schedule that is stated with positions modulo the key length, for keys of 4, 6 and 8 words, and stays inside the table of round constants |
| AesKeys.InitKey | src/hce-lib/lib-ext/microaes/src/main/c/aes.c:132-177 | the three contexts hold the whole schedule for 10, 12 and 14 rounds |
| DesTables.PermutationsUndone | src/hce-lib/lib-ext/cppdes/src/main/cpp/des_lookup.h:10-32 | the final permutation undoes the initial one, on either side |
| Des.ClimbDown | src/hce-lib/lib-ext/cppdes/src/main/cpp/des.cpp:81-85 | for any round function and any keys: with the keys reversed and the halves swapped every round meets the halves it left |
| Des.CryptInverts | src/hce-lib/lib-ext/cppdes/src/main/cpp/des.cpp:72-121 | for any round function and any number of round keys each mode undoes the other |
| Des.Inverts | src/hce-lib/lib-ext/cppdes/src/main/cpp/des.cpp:13-33 | decryption undoes encryption and encryption undoes decryption, under every key |
| Des.FNot | src/hce-lib/lib-ext/cppdes/src/main/cpp/des.cpp:124-158 | complementing the half and the round key does not change the round function |
| Des.SubKeysNot | src/hce-lib/lib-ext/cppdes/src/main/cpp/des.cpp:35-64 | the schedule of the complemented key is the complemented schedule |
| Des.Complementation | src/hce-lib/lib-ext/cppdes/src/main/cpp/des.cpp:35-158 | the complemented block under the complemented key gives the complemented result, in both modes |
| Des.WeakKey | src/hce-lib/lib-ext/cppdes/src/main/cpp/des.cpp:35-92 | when both halves after the first permuted choice are constant, encrypting twice does nothing |
| Des.ParityIgnored | src/hce-lib/lib-ext/cppdes/src/main/cpp/des_key.h:6-16 | keys that differ in parity bits only encrypt alike |
| Des.Cipher.Keygen | src/hce-lib/lib-ext/cppdes/src/main/cpp/des.cpp:35-64 | the nested loops fill the sixteen round keys of the schedule |
| Des.Cipher.RoundFunction | src/hce-lib/lib-ext/cppdes/src/main/cpp/des.cpp:124-158 | expansion, key, substitution and permutation |
| Des.Cipher.Run | src/hce-lib/lib-ext/cppdes/src/main/cpp/des.cpp:72-92 | the sixteen rounds with the keys forwards or backwards |
| TripleDes.Inverts3 | src/hce-lib/lib-ext/cppdes/src/main/cpp/des3.cpp:10-18 | each direction of triple DES undoes the other |
| TripleDes.EqualKeys | src/hce-lib/lib-ext/cppdes/src/main/cpp/des3.cpp:10-18 | when the first two or the last two keys are equal, triple DES is DES |
| TripleDes.Des3Cbc.Encrypt | src/hce-lib/lib-ext/cppdes/src/main/cpp/des3cbc.cpp:10-14 | a block is chained to the last one, which it becomes |
| TripleDes.Des3Cbc.Decrypt | src/hce-lib/lib-ext/cppdes/src/main/cpp/des3cbc.cpp:16-21 | a block is unchained from the last one, and becomes it |
| TripleDes.Des3Cbc.Reset | src/hce-lib/lib-ext/cppdes/src/main/cpp/des3cbc.cpp:23-26 | the chain starts again from the vector |
| TripleDes.Des3Cbc.EncryptAll | src/hce-lib/lib-ext/cppdes/src/main/cpp/des3cbc.cpp:10-14 | a run of calls returns the chained stream and keeps its last block |
| TripleDes.Des3Cbc.DecryptAll | src/hce-lib/lib-ext/cppdes/src/main/cpp/des3cbc.cpp:16-21 | a run of calls returns the unchained stream and keeps the last block it was given |
| Cbc.RoundTrip | src/hce-lib/lib-hce/hce-core/src/main/cpp/crypto/CipherAES.cpp:64-135 | for any block size and any functions on blocks of which one undoes the other: decryption undoes encryption under the same vector |
| Cbc.EncryptSplits | src/hce-lib/lib-hce/hce-core/src/main/cpp/crypto/CipherAES.cpp:64-97 | a message in two pieces, the second under the vector the first hands on, is encrypted as in one call |
| Cbc.DecryptSplits | src/hce-lib/lib-hce/hce-core/src/main/cpp/crypto/CipherAES.cpp:99-135 | and decrypted as in one call |
| Cbc.VectorSpoilsFirst | src/hce-lib/lib-hce/hce-core/src/main/cpp/crypto/CipherAES.cpp:99-135 | a wrong vector spoils the first block and nothing else |
| CipherAeses.CipherAes.Init | src/hce-lib/lib-hce/hce-core/src/main/cpp/crypto/CipherAES.cpp:32-50 | the context of the key's size gets the schedule of the key |
| CipherAeses.CipherAes.Encrypt | src/hce-lib/lib-hce/hce-core/src/main/cpp/crypto/CipherAES.cpp:64-97 | the output is the chained message; the vector is replaced by a new buffer with the last block, and its old memory is not written |
| CipherAeses.CipherAes.Decrypt | src/hce-lib/lib-hce/hce-core/src/main/cpp/crypto/CipherAES.cpp:99-135 | the output is the unchained message; the vector is replaced by the last whole block of the input |
| CipherAeses.ModeUndone | src/hce-lib/lib-hce/hce-core/src/main/cpp/crypto/CipherAES.cpp:64-135 | decryption undoes encryption for every message of whole blocks, with every schedule |
| CipherDeses.CipherDes.Init | src/hce-lib/lib-hce/hce-core/src/main/cpp/crypto/CipherDES.cpp:35-66 | a key of 8 bytes serves three times, of 16 bytes the first half again at the end |
| CipherDeses.CipherDes.Encrypt | src/hce-lib/lib-hce/hce-core/src/main/cpp/crypto/CipherDES.cpp:80-112 | the output is the chained message, and the memory of the vector is overwritten with the last block |
| CipherDeses.CipherDes.Decrypt | src/hce-lib/lib-hce/hce-core/src/main/cpp/crypto/CipherDES.cpp:114-150 | the output is the unchained message, by encryption in the legacy mode, and the memory of the vector is overwritten with the last block of the input |
| CipherDeses.ModesUndone | src/hce-lib/lib-hce/hce-core/src/main/cpp/crypto/CipherDES.cpp:80-150 | decryption undoes encryption; the legacy mode undoes a chaining by decryption |
| CipherDeses.StreamAgrees | src/hce-lib/lib-hce/hce-core/src/main/cpp/crypto/CipherDES.cpp:90-102 | the stateful cipher returns, word by word, what one call on the bytes returns |
| CipherDeses.UnstreamAgrees | src/hce-lib/lib-hce/hce-core/src/main/cpp/crypto/CipherDES.cpp:124-140 | and so it does for decryption |
| CipherDeses.StreamUndone | src/hce-lib/lib-ext/cppdes/src/main/cpp/des3cbc.cpp:10-21 | the stateful cipher undoes itself from the same vector |
| ByteBuffers.ByteBuffer.PutBytes | src/hce-lib/lib-rt/rt-lang/src/main/include/rt/Buffer.h:396-406 | bytes go in at the position and everything else stays |
| ByteBuffers.ByteBuffer.GetBuffer | src/hce-lib/lib-rt/rt-lang/src/main/include/rt/Buffer.h:411-423 | as much as there is and as there is room for goes over, and the other buffer is flipped |
| ByteBuffers.ByteBuffer.PutBuffer | src/hce-lib/lib-rt/rt-lang/src/main/include/rt/Buffer.h:457-466 | what another buffer still holds is appended |
| ByteBuffers.ByteBuffer.Push | src/hce-lib/lib-rt/rt-lang/src/main/include/rt/Buffer.h:500-511 | room is made without regard to the limit, and cleared on demand |
| ByteBuffers.ByteBuffer.RotateLeft | src/hce-lib/lib-rt/rt-lang/src/main/include/rt/Buffer.h:536-559 | in place with k temporaries the bytes turn left by the reduced count, also by more than half the buffer |
| ByteBuffers.ByteBuffer.RotateRight | src/hce-lib/lib-rt/rt-lang/src/main/include/rt/Buffer.h:561-579 | and right |
| ByteBuffers.TurnsUndone | src/hce-lib/lib-rt/rt-lang/src/main/include/rt/Buffer.h:536-579 | turning right undoes turning left and the other way round, and both keep the multiset of bytes |
| ByteBuffers.ByteBuffer.GetLong | src/hce-lib/lib-rt/rt-lang/src/main/include/rt/ByteBuffer.h:218-237 | the number whose bytes come next, the first one most significant; of more than eight bytes the last eight |
| ByteBuffers.ByteBuffer.PutLong | src/hce-lib/lib-rt/rt-lang/src/main/include/rt/ByteBuffer.h:239-253 | the low bytes of a number go in, the most significant first, and everything else stays |
| ByteBuffers.LongRoundTrip | src/hce-lib/lib-rt/rt-lang/src/main/include/rt/ByteBuffer.h:218-253 | a number that was put comes back with its higher bytes cleared, and bytes that were got are put back |
| ByteBuffers.Xored | src/hce-lib/lib-rt/rt-lang/src/main/include/rt/ByteBuffer.h:87-101 | a new buffer with the exclusive or of two memories of one capacity |
| ByteBuffers.Slice | src/hce-lib/lib-rt/rt-lang/src/main/include/rt/ByteBuffer.h:300-320 | a piece counted from the position or back from the limit |
| ByteBuffers.ShiftBitsLeft | src/hce-lib/lib-rt/rt-lang/src/main/include/rt/ByteBuffer.h:353-366 | the loop that passes bits between bytes shifts the whole by one |
| ByteBuffers.ShiftBitsRight | src/hce-lib/lib-rt/rt-lang/src/main/include/rt/ByteBuffer.h:368-380 | and to the right |
| Bytes.LeftIsDoubling | src/hce-lib/lib-rt/rt-lang/src/main/include/rt/ByteBuffer.h:353-366 | shifting left doubles the big-endian number modulo the size of the buffer, and tells when it did not fit, for any length |
| Bytes.RightHalves | src/hce-lib/lib-rt/rt-lang/src/main/include/rt/ByteBuffer.h:368-380 | shifting right halves it |
| Cmacs.DoubledValue | src/hce-lib/lib-hce/hce-core/src/main/cpp/crypto/CMAC.cpp:69-79 | each key is the double of the one before in the field: the mask is added exactly when the number does not fit |
| Cmacs.NextKey | src/hce-lib/lib-hce/hce-core/src/main/cpp/crypto/CMAC.cpp:69-79 | the shifted buffer with the mask on its last byte |
| Cmacs.Prepare | src/hce-lib/lib-hce/hce-core/src/main/cpp/crypto/CMAC.cpp:84-104 | the message is copied, padded when it is not whole, and its last block gets the first or the second key |
| Cmacs.PaddingInjective | src/hce-lib/lib-hce/hce-core/src/main/cpp/crypto/CMAC.cpp:91-93 | two messages that need padding are never padded to the same blocks |
| Cmacs.ChainEndsInMac | src/hce-lib/lib-hce/hce-core/src/main/cpp/crypto/CMAC.cpp:106-110 | the last block of the chain over the prepared message is the code defined block by block in section 2.4 of RFC 4493 |
| Cmacs.CmacAes | src/hce-lib/lib-hce/hce-core/src/main/cpp/crypto/CMAC.cpp:29-124 | the context holds the schedule of the key, and the result is the code under it for every message that is not empty; in the truncated mode every second byte of it |
| Cmacs.LeftHalfExactly | src/hce-lib/lib-hce/hce-core/src/main/cpp/crypto/CMAC.cpp:112-121 | the truncated code is the left half, as the comment says, exactly when each byte of the left half equals the one at twice its place and one |
| Cmacs.NotTheLeftHalf | src/hce-lib/lib-hce/hce-core/src/main/cpp/crypto/CMAC.cpp:112-121 | a code for which it is not |
| Cmacs.CmacDes | src/hce-lib/lib-hce/hce-core/src/main/cpp/crypto/CMAC.cpp:29-124 | the same for blocks of eight bytes, section 6 of NIST SP 800-38B; the caller's vector is left holding the code |
| CrcTables.Entry1IsDivision | src/hce-lib/lib-hce/hce-core/src/main/cpp/crc/CRC.cpp:26-60 | every entry of the first table is what dividing its index leaves |
| CrcTables.Entry2IsDivision | src/hce-lib/lib-hce/hce-core/src/main/cpp/crc/CRC.cpp:62-96 | every entry of the second table, in the reflected order |
| Division.TableStep | src/hce-lib/lib-hce/hce-core/src/main/cpp/crc/CRC.cpp:121-127 | looking up the bits that fall out is dividing by as many bits of the message |
| Crc.LookUpDivides | src/hce-lib/lib-hce/hce-core/src/main/cpp/crc/CRC.cpp:121-127 | one turn of the table loop divides by one byte |
| Crc.Ccitt16 | src/hce-lib/lib-hce/hce-core/src/main/cpp/crc/CRC.cpp:113-130 | in both bit orders the loop is the division of the message by the polynomial; without a message the result is the complement of the start value |
| Crc.Iso14443A | src/hce-lib/lib-hce/hce-core/src/main/cpp/crc/CRC.cpp:98-106 | CRC_A, Annex B of ISO/IEC 14443-3 |
| Crc.Ccitt32 | src/hce-lib/lib-hce/hce-core/src/main/cpp/crc/CRC.cpp:147-168 | the nested loops are the division by the polynomial of degree 32 |
| CrcDetection.OwnCheckIsZero | src/hce-lib/lib-hce/hce-core/src/main/cpp/crc/CRC.cpp:113-130 | the only check of a message followed by its own check, the byte that falls out first first, is zero |
| CrcDetection.OwnCheckIsZero32 | src/hce-lib/lib-hce/hce-core/src/main/cpp/crc/CRC.cpp:147-168 | the same for 32 bits |
| CrcDetection.CheckDetermined | src/hce-lib/lib-hce/hce-core/src/main/cpp/crc/CRC.cpp:113-130 | a message has one check only |
| CrcDetection.CheckDetermined32 | src/hce-lib/lib-hce/hce-core/src/main/cpp/crc/CRC.cpp:147-168 | and one of 32 bits |
| CrcDetection.NoCollision16 | src/hce-lib/lib-hce/hce-core/src/main/cpp/crc/CRC.cpp:113-130 | messages of one length that differ only within two consecutive bytes have different checks |
| CrcDetection.NoCollision32 | src/hce-lib/lib-hce/hce-core/src/main/cpp/crc/CRC.cpp:147-168 | and within four for the 32-bit check |
| BlockingQueues.BlockingQueue.Get | src/hce-lib/lib-rt/rt-lang/src/main/include/rt/BlockingQueue.h:97-123 | the first element, or none at once when the queue is empty |
| BlockingQueues.BlockingQueue.Add | src/hce-lib/lib-rt/rt-lang/src/main/include/rt/BlockingQueue.h:74-83 | the element goes to the end |
| BlockingQueues.BlockingQueue.Remove | src/hce-lib/lib-rt/rt-lang/src/main/include/rt/BlockingQueue.h:125-130 | every equal element goes and nothing else |
| BlockingQueues.WithoutKeeps | src/hce-lib/lib-rt/rt-lang/src/main/include/rt/BlockingQueue.h:125-130 | what is left is the multiset of the others |
| Executors.RunInv | src/hce-lib/lib-rt/rt-lang/src/main/cpp/Executor.cpp:86-196 | the invariant holds after every run of submit, worker and terminate steps, whatever the interleaving |
| Executors.Safety | src/hce-lib/lib-rt/rt-lang/src/main/cpp/Executor.cpp:86-196 | queued jobs are waiting, held, finished or dropped; they are taken in the order of the queue; none is taken, started or finished twice; no task is asked to end twice; no more than the number of threads are held |
| Executors.NothingAfterReturn | src/hce-lib/lib-rt/rt-lang/src/main/cpp/Executor.cpp:161-196 | once terminate has returned no thread holds a job, and nothing is taken or started afterwards |
| Executors.LeftBehindExactly | src/hce-lib/lib-rt/rt-lang/src/main/cpp/Executor.cpp:145-159 | after terminate the queue can fill again exactly when a caller was past the test of the flag |
| Executors.NeverTaken | src/hce-lib/lib-rt/rt-lang/src/main/cpp/Executor.cpp:145-196 | a job left in the queue is never taken: it stays there, or a later terminate drops it |
| Executors.NextTerminateDrops | src/hce-lib/lib-rt/rt-lang/src/main/cpp/Executor.cpp:161-196 | the next terminate, undisturbed, returns and empties the queue |
| Executors.MayLeaveBehind | src/hce-lib/lib-rt/rt-lang/src/main/cpp/Executor.cpp:145-196 | a run in which a job is queued after terminate has returned |
| Executors.AllListedAsked | src/hce-lib/lib-rt/rt-lang/src/main/cpp/Executor.cpp:168-174 | when the list is found empty every task that a thread has listed, and that is not finished, was asked to end |
| Executors.EscapeExactly | src/hce-lib/lib-rt/rt-lang/src/main/cpp/Executor.cpp:161-196 | while terminate waits for the threads, some continuation has a started task that was not asked to end if and only if a thread has taken a job and not listed it, is at a listed one that was not asked, or may still take one |
| Executors.EscapeAtJoin | src/hce-lib/lib-rt/rt-lang/src/main/cpp/Executor.cpp:168-174 | at the point where the list is found empty: no task escapes if and only if no thread has a job that it has not listed, and none is about to look for one unless the queue is empty and no caller is about to add to it |
| Executors.MayNotAsk | src/hce-lib/lib-rt/rt-lang/src/main/cpp/Executor.cpp:94-99 | a run in which terminate waits for a started task that it never asked to end |

## Left out

- FtdiRead.Context.ReadData: packet sizes 1 and 2, which no chip has, are excluded; the arithmetic of the code is not meant for them.
- FtdiBaud.ToClkbitsAM: rates above 214748364, where the multiplication by ten that chooses the clock overflows an int, are computed without overflow; no chip accepts them.
- FtdiBaud.Port.SetBaudrate: rates above 536870911 in bitbang mode, for which four times the rate overflows an int, are computed without overflow.
- FtdiStream.StreamState.ReadStream: the set-up of the chip and of the transfers, and errors in it, are not modelled; nor is what becomes of the transfers that are in flight when the loop is left, and the rates that the progress tells.
- TarHeader.RawToHeader: octal fields that hold more than 64 bits, for which sscanf has no defined result, are read as mathematical numbers and wrap; and the type is taken as an unsigned byte, while the code extends the sign of a type above 127 where `char` is signed.
- Tar.Tar.WriteData: failures of the underlying file while writing are not modelled; reading past the end is.
- Tar.Tar.Finalize: the same, a write that fails is not modelled.
- BlockingQueues.BlockingQueue.Get: only the call that does not wait, which is the one the executor makes; the waits with a timeout and without end are not modelled.
- Eeproms.Eeprom.Build: flags are booleans and numbers not negative, so negative drive strengths, which would spill into other bits, are not modelled.
- Eeproms.Eeprom.Decode: images whose string offsets point outside the buffer are excluded, because the code then reads outside it.
- Aes.Encrypt: zero rounds, for which the code uses the second round key as the last, are excluded, as they are in the decryption.
- Cmacs.CmacAes: the empty message is excluded, for the code does not pad it and there is no last block; so it is in Cmacs.CmacDes.
- Executors.Safety: nothing is said about progress, because the wait for a notification tests no condition. Thread priorities and the texts of the log are left out.
- USB discovery, control transfers and writing: `ftdi_write_data` passes bytes on in pieces and changes nothing.
- EEPROM images of the AM, R and FT-X chips, and user data in the image.
- `mtar_open_file` and the other file access of microtar, and its convenience functions for default headers.
- DES in CBC mode with a single key (`descbc.cpp`): the same as triple DES with equal keys.
- `Buffer::shift`, little-endian numbers, `pop`, `peek` and the streaming functions of the buffers; the pooling of their memory.
- Loggers, the user interface, JSON, the file system, and the task that drives the NFC controller.
