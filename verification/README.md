# A model of FsRover's engines

FsRover is a filesystem browser for Windows. Beneath its windows lie a few engines
with contracts of their own, and this project models them in Dafny and proves what
they promise.

| file | what it models |
|---|---|
| `Bits.dfy`, `Canonical.dfy` | shifts, masks, bit reversal and packed fields; canonical Huffman codes, independent of any decoder |
| `ZHuffman.dfy`, `Deflate.dfy`, `Tables.dfy`, `Supply.dfy`, `Inflate.dfy`, `Zlib.dfy`, `Overrun.dfy`, `Samples.dfy` | the inflate decoder of `stb_image.h`: tables, bit buffer, block parsers, LZ77 copies into a growing buffer. `Deflate.dfy` is the reference: what an encoder may write (RFC 1951) and what it stands for, `Tables.dfy` its constants as rules; `Supply.dfy` keeps account of the bits in hand, real and invented; `Overrun.dfy` says how far an accepted stream may run past its data; `Samples.dfy` has streams of each block type in full |
| `JHuffman.dfy`, `Jpeg.dfy` | JPEG Huffman decoding, sign extension and the shortcut table for short AC coefficients, against Annexes C and F of ITU-T T.81 |
| `JpegStream.dfy`, `JpegBlock.dfy`, `JpegCode.dfy`, `JpegCut.dfy` | the bits of an entropy-coded segment apart from any buffer, the blocks they stand for and exactly when the decoder reads them right, what an encoder writes and its way back, and a block that is lost |
| `Png.dfy`, `Adam7.dfy` | PNG row reconstruction with alternating buffers, alpha insertion in place, and interlaced images (RFC 2083) |
| `Lzw.dfy`, `GifFrame.dfy`, `Gif.dfy` | LZW over prefix links and sub-blocks, and the interlaced pixel cursor (Appendices E and F of GIF89a) |
| `Worker.dfy`, `Progress.dfy` | the single-worker protocol of `backend.cpp`, one step per critical section, any number of threads, and what the worker gets done |
| `LostScan.dfy`, `HexView.dfy`, `ListSizes.dfy` | its clients: the sliced partition search, the hex viewer's chunk cache, the lazy size filler |
| `Rtf.dfy`, `MdRtf.dfy`, `MdDoc.dfy`, `MdCode.dfy`, `MdTree.dfy` | an RTF reader, the Markdown renderer against it, what holds of every document and of code blocks, and what a document shows by its structure alone |
| `Crc.dfy`, `CrcCheck.dfy`, `KeyFiles.dfy`, `Icns.dfy` | table-driven CRCs against polynomial division and their check values, VeraCrypt key-file mixing, the ICNS run-length decoder |

`dafny verify dfyconfig.toml` checks everything.

## How to read it

A bit stream is the natural number its bits form, so "the next n bits" is a mask
and "after them" a shift; `Starts(v, fields)` says which fields a stream begins
with, and encoders are functions to fields. Decoders that work in place are classes
or methods on arrays whose postconditions tie the new state to a function of the
old one. Protocols are state machines; their theorems speak of every sequence of
enabled steps. Each decoder is proved in both directions where the source promises
both: what it accepts is an encoding of its result, and every encoding is accepted.

## What turned out not to hold

- **Inflate accepts truncated streams.** Past the end a refill reads zero bytes and
  a symbol is granted sixteen zero bits once, and only some uses of them are noticed.
  The single byte 0x03 is accepted as an empty block of ten bits (`DecodeTruncated`).
  `DoZlib` accepts data exactly when some encoding begins them, read with zeros
  behind, its output fits, and the supply lasts: `Supply.Rest` runs dry at a symbol
  with fewer than sixteen bits in hand, no input and the grant used up, at an end mark
  that eats into the grant (stb_image.h:4325), and at missing stored bytes. Whole
  encodings always last (`ContainedServed`); an accepted one lacks at most 55 of its
  bits (`AcceptedOverrun`).
- **A JPEG table with 256 symbols whose last code has at most nine bits misreads
  symbol 255**, because 255 also marks an empty lookup entry (stb_image.h:2033-2041;
  a DHT segment may list 256 symbols). `MisreadTable` and `MisreadSegment` give sixteen
  counts that make such a table and three bytes on which it misreads,
  `MisreadReached` bytes for any such table, and `HuffDecode` is right exactly when
  the next symbol is not that one.
- **The fast AC path and the plain one differ close to a marker**, and both differ
  from what the bits stand for. `TableMattersIff` says when the two differ, from the
  bits in hand after one refill; `RoundIff` and `BlockIff` when the decoder reads what
  the stream of bits stands for: exactly when the data does not end inside a symbol
  or its value. `LostToTheTable` is a segment that loses a block. No block is lost that
  ends before the marker (`BlockComesBack`), and none at all with 245 bytes left before
  it (`MarkerFarOff`).
- **In the GIF decoder the test for the code just added never fires**
  (stb_image.h:6757): the counter has moved on already. The entry's `first` field,
  set just before, supplies the right symbol.
- **A synchronous request can be lost** when two threads stop the backend and a third
  starts it in between: the slower stop clears the new worker's requests.
  `LossExactly` says exactly when; without such a start nothing is ever cleared. The
  stop also leaves a live worker behind a stopped state (`StrandsIff`), which no later
  stop ends and which answers nobody (`StrandedForGood`). The program starts and stops
  the backend from one thread.
- **A stopped partition search keeps its handle open for good** when the slice that
  should close it is refused or discarded. Over every run a stopped search is open
  exactly when it was open at the stop and no slice of it has run since
  (`StoppedOpenIff`); once no slice is queued and the dialog has moved on it stays open
  in every continuation (`OpenForGood`), and before that it can still be closed
  (`StillClosable`). `RefusedStop` is such a run. A finished search is always closed.
  A search that was not stopped stands still, open, exactly when one of its results,
  next slices or queued slices was lost (`GoesOnIff`).
- **A NUL in a code block can land on the wrong line.** The replacement character is
  written without the line breaks still owed (mdrtf.cpp:806-809): `a`, break, NUL, `b`
  shows the character before the break (`MisplacedExample`). `CodeBlockText`: a block
  shows its content exactly when no NUL directly follows a line break.
- **A heading that opens a list item or a footnote carries the number or marker in
  its anchor's name**, since that text is written with the heading already begun
  (mdrtf.cpp:316-323, 381-398): `1. # T` is named after `1.T` (`NumberedHeading`).
  A heading is named after its own text exactly when nothing stands in front of it
  (`HeadingNamed`).
- **Rows of a refused size request stay flagged** and are not asked for again until
  the directory is asked for or listed anew (`RefusedBatch`). `FlagsExactly` says which
  rows are flagged after any events; `FlagsIff`: they are those in flight exactly when
  no batch was refused since the directory was last asked for or listed.
- **Doubling an empty buffer never ends.** `stbi__zexpand` (stb_image.h:4273-4293)
  ends exactly when the buffer has at least one byte or none is needed
  (`DoublingEnds`), so `DoZlib` asks for one byte in an expandable buffer; a fixed one
  may be empty.

## Model

| member | source | states |
|---|---|---|
| `Canonical.AcceptedIffKraft` | FsRover/stb_image.h:4139-4147 | a code length list leaves room for all its codes if and only if it meets the Kraft inequality |
| `Canonical.HitUnique` | FsRover/stb_image.h:4124-4170 | no code is a prefix of another: sixteen bits begin with at most one code |
| `Canonical.HitExists` | FsRover/stb_image.h:4230-4236 | bits below the limit of length s begin with a code of length at most s |
| `ZHuffman.Table.Build` | FsRover/stb_image.h:4124-4170 | accepts a list if and only if it meets the Kraft inequality, and then all tables describe its canonical code |
| `ZHuffman.Table.CountSizes` | FsRover/stb_image.h:4131-4135 | the histogram of code lengths, length 0 cleared |
| `ZHuffman.Table.AssignCodes` | FsRover/stb_image.h:4138-4150 | first codes, first symbols and limits of every length; fails exactly when some length overflows; no 16-bit field truncates |
| `ZHuffman.Table.FillSymbols` | FsRover/stb_image.h:4151-4168 | sorted symbol list and lookup table are right for every symbol |
| `ZHuffman.Table.StampFast` | FsRover/stb_image.h:4158-4164 | exactly the indices whose low bits are the reversed code get the entry |
| `ZHuffman.MatchesIsHit` | FsRover/stb_image.h:4107-4122 | reading a code most significant bit first is comparing the reversed window |
| `Inflate.ZBuf.Get8` | FsRover/stb_image.h:4197-4200 | the next byte, zero past the end |
| `Inflate.ZBuf.FillBits` | FsRover/stb_image.h:4202-4213 | at least 25 bits in hand, the stream unchanged and the supply refilled byte by byte; the end-of-file escape never fires |
| `Inflate.ZBuf.Receive` | FsRover/stb_image.h:4215-4222 | the next n bits of the zero-extended stream, exactly n consumed |
| `Inflate.ZBuf.HuffmanDecode` | FsRover/stb_image.h:4243-4271 | symbol i with exactly its bits consumed if and only if its canonical code comes next; -1 if and only if none does or the supply is dry |
| `Inflate.ZBuf.Lookup` | FsRover/stb_image.h:4264-4271 | table lookup and slow search together find the one matching symbol or none |
| `Inflate.ZBuf.SlowPath` | FsRover/stb_image.h:4224-4241 | finds the matching symbol of more than nine bits; the index is in range, so neither guard fires |
| `Inflate.ZBuf.FindLength` | FsRover/stb_image.h:4230-4233 | the first length whose limit lies above the window |
| `Inflate.ZBuf.PadZeros` | FsRover/stb_image.h:4246-4259 | sixteen zero bits are granted once at the end of the input |
| `Inflate.ZBuf.MakeRoom` | FsRover/stb_image.h:4273-4293 | succeeds if and only if the bytes fit the size the buffer can be doubled to, and then they fit |
| `Inflate.DoublingEnds` | FsRover/stb_image.h:4273-4293 | the doubling loop ends if and only if the buffer is not empty or nothing is needed |
| `Inflate.ZBuf.ReadToken` | FsRover/stb_image.h:4309-4341 | the literal, end mark or length/distance pair whose fields come next; every such token ahead is read |
| `Inflate.ZBuf.ReadCopy` | FsRover/stb_image.h:4330-4340 | length and distance with their extra bits, sound and complete |
| `Inflate.ZBuf.WriteToken` | FsRover/stb_image.h:4316-4353 | appends the token's expansion if and only if its distance lies inside the output and the result can be stored |
| `Inflate.ZBuf.CopyRun` | FsRover/stb_image.h:4344-4353 | overlapping copies byte by byte; the distance-one shortcut is the same copy |
| `Deflate.CopyPeriodic` | FsRover/stb_image.h:4344-4353 | a copied run repeats the last d bytes with period d |
| `Inflate.ZBuf.ParseHuffmanBlock` | FsRover/stb_image.h:4309-4357 | success means the bits were a token list whose expansion is the new output, served by the supply to the test at its end mark; every block so served that fits is decoded |
| `Inflate.ZBuf.ReadClLens` | FsRover/stb_image.h:4366-4373 | code length code lengths in transmission order |
| `Inflate.ZBuf.ReadOp` | FsRover/stb_image.h:4379-4399 | one repeat operation of the code length alphabet |
| `Inflate.ZBuf.ReadLengths` | FsRover/stb_image.h:4377-4402 | the expanded code lengths, sound and complete against the list of operations |
| `Inflate.ZBuf.ComputeHuffmanCodes` | FsRover/stb_image.h:4359-4407 | the two tables of a dynamic header, for every header that meets RFC 1951 |
| `Inflate.ZBuf.ReadStoredHeader` | FsRover/stb_image.h:4409-4425 | draining the bit buffer yields at most the four header bytes |
| `Inflate.ZBuf.CopyStored` | FsRover/stb_image.h:4426-4436 | the stored bytes are appended as they are |
| `Inflate.ZBuf.ParseStored` | FsRover/stb_image.h:4409-4436 | success means padding, length, its complement and the bytes were read and appended; every stored block that fits is accepted |
| `Inflate.RestData` | FsRover/stb_image.h:4426-4436 | stored bytes are served if and only if they are all still in the input |
| `Inflate.ZBuf.ParseBlock` | FsRover/stb_image.h:4486-4506 | one block of any type: its encoding is consumed and its output appended |
| `Inflate.FixedKraft` | FsRover/stb_image.h:4452-4479 | the default tables are accepted by the builder |
| `Inflate.ZBuf.ParseZlibHeader` | FsRover/stb_image.h:4438-4450 | accepts exactly the two-byte headers of section 2.2 of RFC 1950 without dictionary |
| `Inflate.ZBuf.ParseBlocks` | FsRover/stb_image.h:4481-4508 | the block loop ends, and succeeds exactly for block lists that are ahead, served and fit |
| `Zlib.DoZlib` | FsRover/stb_image.h:4510-4518 | accepts data if and only if they begin, zeros behind them, with the encoding of some blocks that the supply of bits lasts for and whose output can be stored; returns exactly their expansion |
| `Zlib.ContainedServed` | FsRover/stb_image.h:4202-4271 | data that contain an encoding in full are served to its end, whatever follows |
| `Overrun.TruncatedServed` | FsRover/stb_image.h:4243-4271 | the byte 3 is served as a block of ten bits, two of which are not there |
| `Overrun.DecodeTruncated` | FsRover/stb_image.h:4510-4518 | and so decodes to no output at all |
| `Overrun.AcceptedOverrun` | FsRover/stb_image.h:4309-4330 | whatever is accepted lacks at most 55 of its bits |
| `Overrun.BodyOverrun` | FsRover/stb_image.h:4309-4330 | a block body ends at most 55 bits past the data, or it has no symbols and its end mark adds at most 15 bits to what was missing before it |
| `Overrun.TailOfZeros` | FsRover/stb_image.h:4138-4147 | if the end mark is all zeros it is at most seven bits longer than the part of any other code before its trailing zeros |
| `Overrun.HeaderOverrun` | FsRover/stb_image.h:4359-4407 | a dynamic header followed by an end mark read from zeros ends at most 40 bits past the data: not all its code lengths are read from zeros |
| `Supply.RestReal` | FsRover/stb_image.h:4202-4271 | taking fields uses up exactly their widths, whatever was fetched or invented on the way |
| `Zlib.WriterRoundTrip` | FsRover/stb_image.h:4481-4518 | the bytes a writer packs for any block list are served to the end, with and without header |
| `Tables.LengthTable` | FsRover/stb_image.h:4295-4301 | lengths start at 3, symbols 257 to 264 have no extra bits and then four at a time one more, each symbol begins where the one before ends, and 258 is alone |
| `Tables.LengthCovered` | FsRover/stb_image.h:4295-4301 | every match length 3 to 258 has a symbol and extra bits |
| `Tables.LengthUnique` | FsRover/stb_image.h:4295-4301 | and only one, except 258, which the symbol before its own can also write |
| `Tables.DistanceTable` | FsRover/stb_image.h:4303-4307 | distances start at 1, from the third symbol on two at a time have one more extra bit, each symbol begins where the one before ends, up to 32768 |
| `Tables.DistanceCovered` | FsRover/stb_image.h:4303-4307 | every distance 1 to 32768 has a symbol and extra bits |
| `Tables.DistanceUnique` | FsRover/stb_image.h:4303-4307 | and only one |
| `Tables.OrderTable` | FsRover/stb_image.h:4361-4361 | code length lengths come for 16, 17, 18, 0 and then from 8 outwards |
| `Tables.SentLength` | FsRover/stb_image.h:4366-4376 | a transmitted length belongs to the symbol of its place; symbols behind the last place have length 0 |
| `Tables.FixedCode` | FsRover/stb_image.h:4452-4479 | the fixed literal and length codes as the numbers of section 3.2.6 of RFC 1951 |
| `Tables.FixedDistCode` | FsRover/stb_image.h:4452-4479 | the fixed distance codes are the five-bit numbers |
| `Samples.DecodeFixed` | FsRover/stb_image.h:4510-4518 | the fixed block 4B 04 02 00, a literal and a copy of length 3 at distance 1, decodes to "aaaa", bare and behind the header 78 9C |
| `Samples.DecodeDynamic` | FsRover/stb_image.h:4359-4407 | sixteen bytes of a dynamic block whose header uses all four code length operations decode to "abcd" |
| `Samples.DecodeStored` | FsRover/stb_image.h:4409-4436 | six bytes of a stored block decode to "a" |
| `Samples.UsualHeader` | FsRover/stb_image.h:4438-4450 | behind the method byte 78 exactly the second bytes 01, 5E, 9C and DA are taken |
| `JHuffman.Table.Build` | FsRover/stb_image.h:2003-2046 | refuses exactly more than 256 symbols and lists that break the Kraft inequality; otherwise all tables describe the canonical code |
| `JHuffman.Table.ListSizes` | FsRover/stb_image.h:2007-2014 | the length list of the sixteen counts, zero-terminated |
| `JHuffman.Table.AssignCodes` | FsRover/stb_image.h:2016-2031 | codes, deltas and pre-shifted limits of every length |
| `JHuffman.Table.FillFast` | FsRover/stb_image.h:2033-2045 | every lookup entry names the one symbol of at most nine bits it begins with; symbol 255 cannot be entered |
| `JHuffman.SortedSlot` | FsRover/stb_image.h:2018-2026 | in a list sorted by length every symbol has its own index as slot |
| `JpegStream.GrowStream` | FsRover/stb_image.h:2075-2091 | a refill leaves the stream of bits of the segment as it is, whenever it happens |
| `Jpeg.Decoder.HuffDecode` | FsRover/stb_image.h:2097-2147 | for every accepted table: right if and only if the bits in hand do not begin with a symbol 255 the table misreads |
| `Jpeg.Decoder.SlowDecode` | FsRover/stb_image.h:2118-2147 | the search over limits finds the one longer code that matches, unless the symbol is misread |
| `Jpeg.MisreadTable` | FsRover/stb_image.h:2003-2046 | 255 codes of eight bits and one of nine are accepted and make such a table |
| `Jpeg.MisreadSegment` | FsRover/stb_image.h:2097-2147 | on the segment FF 00 00 the decoder with that table is brought to misread |
| `JpegCode.MisreadReached` | FsRover/stb_image.h:2033-2045 | every table of 256 symbols whose last code has at most nine bits is brought to misread it by some segment, whatever marker ends it |
| `Jpeg.Decoder.ExtendReceive` | FsRover/stb_image.h:2149-2166 | RECEIVE and EXTEND of Annex F of ITU-T T.81, by rotation and bias |
| `Jpeg.BuildFastAc` | FsRover/stb_image.h:2050-2073 | an entry is non-zero exactly for short symbols, and packs value, run and combined length |
| `Jpeg.EntryShort` | FsRover/stb_image.h:2229-2244 | unpacking an entry gives back run, value and length |
| `Jpeg.ShortIsSymbolAndValue` | FsRover/stb_image.h:2050-2073 | a short symbol's run, value and bit count are those of Huffman decoding followed by receive-extend |
| `Jpeg.Decoder.DecodeAC` | FsRover/stb_image.h:2229-2261 | the AC coefficients of a block and the position after it, with the shortcut table, for every table and every block in which no symbol is misread |
| `Jpeg.Decoder.DecodeDC` | FsRover/stb_image.h:2215-2222 | the DC size and difference, for every block whose size symbol is not misread |
| `Jpeg.GoodBlock` | FsRover/stb_image.h:2003-2046 | a table that keeps symbol 255 out of the lookup misreads no block |
| `JpegBlock.RoundIff` | FsRover/stb_image.h:2229-2261 | one round reads what the bits stand for if and only if the data does not end inside the symbol or its value |
| `JpegBlock.BlockIff` | FsRover/stb_image.h:2229-2261 | a block comes out as the bits stand for it if and only if none of its symbols is cut |
| `JpegBlock.CutByMarker` | FsRover/stb_image.h:2229-2261 | a symbol is cut only if fewer bits than its code and value come before the marker |
| `JpegBlock.MarkerFarOff` | FsRover/stb_image.h:2229-2261 | nothing is cut with 31 bits before the marker for every coefficient still to come |
| `JpegBlock.TableMattersIff` | FsRover/stb_image.h:2229-2261 | with and without the shortcut table a round differs if and only if, after one refill, a short code is complete but its value is not, or another code is not |
| `JpegCut.LostToTheTable` | FsRover/stb_image.h:2210-2261 | a segment whose DC difference is read and leaves the AC part to be refused through the table, while without the table it is read as the block the bits stand for |
| `JpegCode.BlockOfTokens` | FsRover/stb_image.h:2229-2261 | a stream that begins with an encoded block stands for its coefficients |
| `JpegCode.BlockComesBack` | FsRover/stb_image.h:2229-2261 | every encoded AC block before the marker is read back |
| `JpegCode.DcComesBack` | FsRover/stb_image.h:2215-2222 | every encoded DC difference before the marker is read back |
| `JpegCode.WrittenBlock` | FsRover/stb_image.h:2075-2091 | the stuffed bytes of any encoded block carry it, whatever marker and bytes follow |
| `JpegCode.FirstBlock` | FsRover/stb_image.h:2003-2261 | tables from two DHT segments, shortcut table and the first block: whatever an encoder wrote comes back |
| `Png.PaethAgrees` | FsRover/stb_image.h:4657-4668 | the branch-free predictor equals the one of section 6.6 of RFC 2083 on all integers |
| `Png.FirstRowIsZeros` | FsRover/stb_image.h:4648-4655 | the first-row table equals filtering against a row of zeros, whatever the other buffer holds |
| `Png.AddedIsPredict` | FsRover/stb_image.h:4757-4780 | what the row loops add is the standard prediction |
| `Png.UndoRow` | FsRover/stb_image.h:4755-4785 | each of the six row loops fills the current buffer and nothing else |
| `Png.UndoesIffFilter` | FsRover/stb_image.h:4755-4785 | adding the prediction undoes a filter, and nothing else does |
| `Png.EncodedUnique` | FsRover/stb_image.h:4737-4785 | the data determines the rows |
| `Png.Reconstruct` | FsRover/stb_image.h:4737-4787 | rows filtered with any types come back; refused exactly when too short or a filter type is above 4 |
| `Png.EncoderIsOne` | FsRover/stb_image.h:4737-4785 | the reference encoder's output is accepted data, whatever follows it |
| `Png.SampleEncoded` | FsRover/stb_image.h:4737-4785 | fifteen bytes, one row for each filter, and their rows |
| `Png.ExpandGrey` | FsRover/stb_image.h:4675-4684 | one channel plus alpha 255, also when source and destination are the same buffer |
| `Png.ExpandColour` | FsRover/stb_image.h:4685-4693 | three channels plus alpha 255, also in place |
| `Adam7.PlaceIsPixel` | FsRover/stb_image.h:4877-4892 | every place of every pass is a pixel of the image, and that pixel's own place |
| `Adam7.PassIsPattern` | FsRover/stb_image.h:4874-4877 | the pass of every pixel, by the printed pattern of eight rows and columns |
| `Adam7.PixelHasPlace` | FsRover/stb_image.h:4877-4892 | every pixel has a place in the pass the standard's pattern names |
| `Adam7.PlacePass` | FsRover/stb_image.h:4888-4895 | the pixels of a pass go to their places, all others stay |
| `Adam7.CreateInterlaced` | FsRover/stb_image.h:4864-4906 | accepts exactly the data whose seven passes are long enough with known filters; these are an image's interlaced form, and every image in that form comes back pixel for pixel |
| `Lzw.DecodeMirrors` | FsRover/stb_image.h:6738-6768 | decoding a code with the older table yields the encoder's string and the encoder's table, including the code not yet in it |
| `Lzw.SixOnes` | FsRover/stb_image.h:6738-6775 | two bytes with a clear code, two codes not yet in the table and a width change decode to six ones |
| `Lzw.GrowIsWidthFor` | FsRover/stb_image.h:6763-6766 | the width test gives the least width that holds the next free code, at most twelve bits |
| `Lzw.RoundTrip` | FsRover/stb_image.h:6711-6770 | whatever any encoder writes, clearing or not, is decoded to the symbols it was given |
| `Lzw.PlainEncodes` | FsRover/stb_image.h:6711-6770 | every symbol sequence has an encoding, so the round trip speaks of all of them |
| `Lzw.GreedyEncodes` | FsRover/stb_image.h:6711-6770 | what the longest-match encoder writes, clearing at any table limit, is among the encodings |
| `Lzw.MatchIsLongest` | FsRover/stb_image.h:6711-6770 | and no known string that comes next is longer than the one it picks |
| `GifFrame.RowsOnce` | FsRover/stb_image.h:6678-6687 | the four interlace passes send each row exactly once |
| `GifFrame.EightRows` | FsRover/stb_image.h:6678-6687 | eight rows are sent in the order 0, 4, 2, 6, 1, 3, 5, 7 |
| `GifFrame.NextPassKeepsPlace` | FsRover/stb_image.h:6682-6686 | changing passes skips no row and repeats none |
| `GifFrame.IndexOnce` | FsRover/stb_image.h:6664-6688 | different pixels have different indices, all below the area |
| `GifFrame.PaintedByPut` | FsRover/stb_image.h:6664-6688 | each pixel of the rectangle gets the symbol of its index, everything else is untouched, surplus symbols are ignored |
| `Gif.EntryAdded` | FsRover/stb_image.h:6742-6752 | the new entry spells the last string plus the next first symbol; links go to smaller live codes and `first` is right |
| `Gif.Raster.OutCode` | FsRover/stb_image.h:6654-6688 | ends, since prefixes are smaller codes, and paints the string of the code |
| `Gif.Raster.PutPixel` | FsRover/stb_image.h:6664-6687 | one symbol at the cursor, which moves on |
| `Gif.Raster.Accept` | FsRover/stb_image.h:6738-6768 | a code other than clear and end does what the string decoder does |
| `Gif.Raster.NextByte` | FsRover/stb_image.h:6712-6723 | the next raster byte across sub-blocks |
| `Gif.Raster.SkipBlocks` | FsRover/stb_image.h:6733-6737 | the position after the terminator |
| `Gif.Raster.ProcessRaster` | FsRover/stb_image.h:6691-6774 | succeeds exactly when the string decoder does, paints its output and stops after the sub-blocks |
| `Gif.WidthBound` | FsRover/stb_image.h:6763-6766 | codes never exceed thirteen bits |
| `Gif.FeedBlocks` | FsRover/stb_image.h:6712-6720 | however bytes are cut into sub-blocks, their concatenation is read |
| `Gif.DrawFrame` | FsRover/stb_image.h:6857-6890 | a frame some encoder wrote is painted exactly, interlaced or not |
| `Worker.InvStep` | FsRover/backend.cpp:1153-1360 | every step keeps: one live worker, tasks in exactly one place, requests run at most once |
| `Worker.InvOfRuns` | FsRover/backend.cpp:1153-1360 | the same over every interleaving of any number of threads |
| `Worker.BodyBeforeReturn` | FsRover/backend.cpp:1326-1360 | no request body runs after its call has returned |
| `Worker.ReportsIncrease` | FsRover/backend.cpp:1170-1198 | reported sequence numbers are non-zero and strictly increasing |
| `Progress.OldestTaken` | FsRover/backend.cpp:1172-1189 | in every run the worker that wakes with tasks queued holds the oldest of them, and the others stay queued |
| `Progress.StartsUnasked` | FsRover/backend.cpp:1191-1195 | the worker enters a task, first or again, only from service_requests with no request queued |
| `Progress.NoneStuck` | FsRover/backend.cpp:1269-1325 | in every run tasks are queued only while a live worker that was not told to stop will look at them |
| `Progress.TaskReported` | FsRover/backend.cpp:1170-1198 | from every reachable state every queued task is reported after steps of the worker alone, behind the task at work and those queued before it |
| `Progress.CallAnswered` | FsRover/backend.cpp:103-125 | from every reachable state every queued request is answered after steps of the worker alone |
| `Progress.StopReturns` | FsRover/backend.cpp:1200-1210 | from every reachable state with the stop flag up the worker ends after its own steps and a stop that waits for it returns |
| `Progress.StartAndStop` | FsRover/backend.cpp:1246-1301 | a started worker comes to take tasks and requests; after a stop that waited for the last worker the backend can be started again |
| `Worker.LossExactly` | FsRover/backend.cpp:1269-1301 | a request is lost exactly when a stop ends while a later worker has requests queued |
| `Worker.StopClearsNothing` | FsRover/backend.cpp:1288-1299 | without a start during a pending stop the request queue is empty when it is cleared |
| `Worker.RequestsServed` | FsRover/backend.cpp:1326-1360 | in such runs each queued request has run exactly once when its worker has exited |
| `Worker.RequestCanBeLost` | FsRover/backend.cpp:1269-1301 | two overlapping stops with a start in between drop a live request and leave its worker behind |
| `Worker.StrandsIff` | FsRover/backend.cpp:1269-1301 | a stop leaves a live worker behind a stopped state if and only if it waited for an earlier one and the present one has not begun to shut down |
| `Worker.StrandedForGood` | FsRover/backend.cpp:1269-1301 | in every continuation such a worker lives, a stop that waits for it does not return, nothing is accepted, and the caller of a dropped request is never answered |
| `LostScan.SliceKeeps` | FsRover/backend.cpp:969-1010 | a slice uses the handle properly and leaves it open exactly when the search goes on |
| `LostScan.SliceEnds` | FsRover/backend.cpp:969-1010 | a slice goes on while the step says there is more, is finished when there is none, and finished and failed on an error or when the search cannot begin |
| `LostScan.ResultActedOn` | FsRover/lostdlg.cpp:443-486 | the result the dialog waits for ends the search there if it says so, and otherwise brings the next slice |
| `LostScan.InvOfRuns` | FsRover/lostdlg.cpp:179-218 | the invariant over every interleaving of show, search, stop, close, slices, results and discards |
| `LostScan.HandleCounts` | FsRover/backend.cpp:969-1010 | opened at most once, ended at most once, open exactly in between |
| `LostScan.ClosedInTheEnd` | FsRover/lostdlg.cpp:204-218 | a search whose stop was accepted is closed as soon as none of its slices is queued, unless the queue was discarded |
| `LostScan.OpenForGood` | FsRover/lostdlg.cpp:206-218 | a stopped, open search with no slice queued that the dialog has left behind stays open in every later state |
| `LostScan.StoppedOpenIff` | FsRover/lostdlg.cpp:204-218 | over every run a stopped search is open if and only if it was open when stopped and no slice of it has run since |
| `LostScan.FinishedClosed` | FsRover/backend.cpp:969-1010 | a finished search is closed, in every run |
| `LostScan.StillClosable` | FsRover/lostdlg.cpp:204-218 | any other stopped open search can still be closed |
| `LostScan.RefusedStop` | FsRover/lostdlg.cpp:206-218 | a run in which the refused stop leaves the handle behind |
| `LostScan.GoesOn` | FsRover/lostdlg.cpp:443-483 | an open search that lost nothing has a slice queued or a result on its way, stopped or not |
| `LostScan.GoesOnIff` | FsRover/lostdlg.cpp:443-483 | over every run an open search that was not stopped has a slice queued or a result on its way if and only if none of its results, next slices or queued slices has been lost |
| `LostScan.NeverReopened` | FsRover/backend.cpp:969-1010 | a released handle is never touched again |
| `LostScan.OwnResults` | FsRover/lostdlg.cpp:443-447 | results acted on belong to the search shown |
| `LostScan.AddPart` | FsRover/lostdlg.cpp:119-137 | parts are flagged exactly when they overlap another, whichever came first |
| `HexView.ReadChunk` | FsRover/backend.cpp:726-771 | fails if and only if the file does not open, or bytes are wanted and the seek fails or an error comes before the read ends; otherwise returns as many of the bytes wanted as the reads give before the first that gives nothing |
| `HexView.ReportedMin` | FsRover/backend.cpp:736-741 | the size reported is the lesser of limit and file size |
| `HexView.Viewer.Request` | FsRover/hexview.cpp:86-101 | nothing is asked for twice; at most four reads in flight; what is posted and pending afterwards |
| `HexView.ViewOf` | FsRover/hexview.cpp:103-119 | the view starts on a row of the file and shows the rows to its end, up to the window |
| `HexView.Viewer.SetView` | FsRover/hexview.cpp:103-137 | the new view and the request for its first chunk |
| `HexView.Viewer.Row` | FsRover/hexview.cpp:157-205 | a row shows the sixteen bytes of the file there, fewer only at the end of what its chunk brought, and asks for a chunk that is missing |
| `HexView.Viewer.StoreChunk` | FsRover/hexview.cpp:430-436 | the chunk is kept and only the oldest of a full cache dropped |
| `HexView.Viewer.OnChunk` | FsRover/hexview.cpp:408-441 | a result counts only if it answers a pending read of the file shown |
| `HexView.Viewer.Show` | FsRover/hexview.cpp:443-452 | a file is opened with nothing left of an earlier one and its first chunk asked for |
| `HexView.Viewer.Closed` | FsRover/hexview.cpp:454-457 | cache, queue and pending reads are emptied |
| `HexView.Session` | FsRover/hexview.cpp:86-463 | after any events every cached chunk holds bytes of the file shown, once each, within the limits; when no read was cut short, all of them up to the chunk's end and the size shown |
| `ListSizes.RunListSizes` | FsRover/backend.cpp:256-284 | sizes of the first files of the batch; all of them unless a newer listing was asked for |
| `ListSizes.JoinSlash` | FsRover/backend.cpp:256-263 | a name stands behind exactly one slash, whether its directory is written with one or without |
| `ListSizes.Window` | FsRover/mainlist.cpp:284-318 | a valid window of at most 192 rows that covers the visible ones when they are fewer |
| `ListSizes.Collect` | FsRover/mainlist.cpp:264-277 | the batch of the window, its flags and names |
| `ListSizes.BatchHolds` | FsRover/mainlist.cpp:264-277 | a batch is the first 64 files of the window that have no size and are not flagged, in order |
| `ListSizes.Fill` | FsRover/mainlist.cpp:494-505 | the entries after the sizes have been filled in, row by row |
| `ListSizes.FilledAt` | FsRover/mainlist.cpp:494-505 | each size goes to the row it was asked for |
| `ListSizes.FileList.Queue` | FsRover/mainlist.cpp:242-282 | the list afterwards is the specified one, whether the worker accepts or refuses |
| `ListSizes.RequestFlags` | FsRover/mainlist.cpp:242-282 | the rows asked for get their flags, and are in flight if and only if the worker accepts; with a batch in flight nothing is asked for |
| `ListSizes.RequestWanted` | FsRover/mainlist.cpp:242-282 | a request leaves no wanted row of its range without a flag |
| `ListSizes.FileList.Navigate` | FsRover/mainnav.cpp:200-208 | sizes still coming belong to nobody |
| `ListSizes.FileList.OnListing` | FsRover/mainlist.cpp:516-547 | only the listing last asked for is shown, and its first range asked for |
| `ListSizes.FileList.OnSizes` | FsRover/mainlist.cpp:483-514 | only the batch in flight for the newest listing is filled in, and the range wanted last asked for |
| `ListSizes.Session` | FsRover/mainlist.cpp:242-547 | any events lead to the specified list; every size shown is that of its file; the flags are those of the batch in flight if and only if no batch was refused since the directory was last asked for or listed |
| `ListSizes.FlagsExactly` | FsRover/mainlist.cpp:242-547 | after any events exactly the rows in flight and those of the batches refused since then are flagged |
| `ListSizes.FlagsIff` | FsRover/mainlist.cpp:242-547 | the flags are those of the batch in flight if and only if every batch since then was accepted |
| `ListSizes.SizesTrue` | FsRover/mainlist.cpp:242-547 | after any events every size shown is that of the file named in its row, in the directory shown |
| `ListSizes.RefusedBatch` | FsRover/mainlist.cpp:242-282 | a run whose refused batch leaves its row flagged with nothing in flight, also when asked for again |
| `Rtf.ReadText` | FsRover/mdrtf.cpp:193-217 | escaped text reads as itself, one character per unit |
| `Rtf.ReadControls` | FsRover/mdrtf.cpp:304-314 | a run of control words and its delimiter take effect word by word and add no other character |
| `MdRtf.Renderer.Open` | FsRover/mdrtf.cpp:336-400 | a paragraph opens with the break owed, the footnote number and the list marker |
| `MdRtf.Renderer.PutText` | FsRover/mdrtf.cpp:316-323 | text is appended, counted and added to a heading's text |
| `MdRtf.Renderer.EmitRule` | FsRover/mdrtf.cpp:414-424 | a rule is one tab in a paragraph of its own |
| `MdRtf.Renderer.EmitCodeText` | FsRover/mdrtf.cpp:430-463 | line breaks of code are owed until more text follows |
| `MdRtf.Renderer.StartLink` | FsRover/mdrtf.cpp:482-489 | a link starts at the current character |
| `MdRtf.Renderer.FinishLink` | FsRover/mdrtf.cpp:491-501 | a link with text and target is recorded |
| `MdRtf.Renderer.Prologue` | FsRover/mdrtf.cpp:503-520 | the header adds no character |
| `MdRtf.Renderer.Epilogue` | FsRover/mdrtf.cpp:522-528 | the end adds no character |
| `MdRtf.Renderer.EnterBlock` | FsRover/mdrtf.cpp:530-632 | each block's effect on the text, links and anchors a reader sees |
| `MdRtf.Renderer.LeaveBlock` | FsRover/mdrtf.cpp:634-706 | the same when a block ends |
| `MdRtf.Renderer.EnterSpan` | FsRover/mdrtf.cpp:708-758 | the same for spans |
| `MdRtf.Renderer.LeaveSpan` | FsRover/mdrtf.cpp:760-798 | the same when a span ends |
| `MdRtf.Renderer.PutRun` | FsRover/mdrtf.cpp:800-839 | the same for text runs |
| `MdRtf.Render` | FsRover/mdrtf.cpp:193-839 | for every callback sequence an RTF reader holds exactly the document's text, and the count is its length |
| `MdTree.Shows` | FsRover/mdrtf.cpp:708-839 | what each piece of inline text shows in a paragraph: a soft break one space, a hard break one line, an image its text in brackets, a footnote reference its number linked to its definition, a link its text unless another link lies inside |
| `MdTree.TextLine` | FsRover/mdrtf.cpp:336-400 | text opens a paragraph at the first thing in it that shows; breaks before that show nothing |
| `MdTree.AllCells` | FsRover/mdrtf.cpp:611-620 | the cells of a row with one tab between any two |
| `MdTree.HeadingCloses` | FsRover/mdrtf.cpp:653-670 | a heading with text leaves exactly one anchor, at its first character, and none otherwise |
| `MdTree.MarkIs` | FsRover/mdrtf.cpp:465-480 | a task shows its box, an ordered item its number, another the bullet for its depth; the list goes on at the next number after tasks and inner lists |
| `MdTree.TreeShown` | FsRover/mdrtf.cpp:530-839 | for every tree of blocks and inline text: the lines of the document, each behind what waited for it, their links and anchors |
| `MdTree.RenderTree` | FsRover/mdrtf.cpp:193-839 | the program on every such tree: what an RTF reader holds is these lines with a break between any two |
| `MdTree.HeadingNamed` | FsRover/mdrtf.cpp:316-323 | a heading is named after its own text if and only if no number or marker stands in front of it |
| `MdTree.NumberedHeading` | FsRover/mdrtf.cpp:316-323 | the heading T in the first item of a numbered list is named after 1.T |
| `MdDoc.AlwaysPlaced` | FsRover/mdrtf.cpp:482-501 | for every callback sequence link ranges are non-empty, ordered, disjoint and inside the text, anchors inside it |
| `MdDoc.LinkCovers` | FsRover/mdrtf.cpp:482-501 | a link covers exactly the text written between its callbacks |
| `MdDoc.ParagraphsJoined` | FsRover/mdrtf.cpp:402-409 | paragraphs appear one after the other with one break between any two and none at either end |
| `MdDoc.OrderedItems` | FsRover/mdrtf.cpp:465-480 | the items of an ordered list appear in turn, each behind its number, counted from the start value |
| `MdCode.SplitFree` | FsRover/mdrtf.cpp:430-463 | code and NULs mean the same however they are split across callbacks |
| `MdCode.CodeBlockText` | FsRover/mdrtf.cpp:430-463 | a code block shows its content without trailing line breaks if and only if no NUL directly follows a line break |
| `MdCode.MisplacedExample` | FsRover/mdrtf.cpp:800-809 | a block in which the character shown for a NUL comes before the line break it follows |
| `Crc.LookupIsEightBits` | FsRover/backend.cpp:678-683 | one table lookup does the work of eight single-bit division steps |
| `Crc.Fill` | FsRover/backend.cpp:589-611 | each entry is its index shifted eight times |
| `Crc.Update` | FsRover/backend.cpp:678-683 | the register after a buffer is the bitwise remainder |
| `Crc.HashFile` | FsRover/backend.cpp:655-694 | the result depends on the bytes only, not on the reads; fails exactly when a read fails |
| `Crc.DivideIsRemainder` | FsRover/backend.cpp:678-683 | the register after a message is the one remainder of the message behind the start value, divided by the generator x^n + poly as polynomials over two elements |
| `Crc.RemainderUnique` | FsRover/backend.cpp:678-683 | such a division has one quotient and one remainder |
| `Crc.Crc32` | FsRover/backend.cpp:589-599 | CRC-32 of section 8 of RFC 1952: the remainder, complemented |
| `Crc.Crc64` | FsRover/backend.cpp:601-611 | CRC-64 of ECMA-182: the remainder, complemented |
| `CrcCheck.RoundIsStep` | FsRover/backend.cpp:595-596 | one division step on a sequence of bits is one round of the inner loop on a machine word |
| `CrcCheck.EntryIsRounds` | FsRover/backend.cpp:592-598 | a table entry is eight such rounds on its index |
| `CrcCheck.CheckValues` | FsRover/backend.cpp:589-611 | the program on the bytes "123456789" gives CBF43926 and 995DC9BBDF1939FA |
| `KeyFiles.PlaceMoves` | FsRover/cryptodlg.cpp:270-275 | the pool index moves by four, wraps, and never leaves a 64- or 128-byte pool |
| `KeyFiles.Apply` | FsRover/cryptodlg.cpp:238-288 | each pool byte grows by a closed-form sum of running CRC bytes; empty files are refused |
| `KeyFiles.TailIgnored` | FsRover/cryptodlg.cpp:265-279 | bytes after the first megabyte have no effect |
| `KeyFiles.OrderFree` | FsRover/cryptodlg.cpp:310-316 | the sum does not depend on the order of the files |
| `KeyFiles.GatherKey` | FsRover/cryptodlg.cpp:295-317 | each key byte is the passphrase byte, or 0 behind it, plus what the files add there; without files the passphrase, cut at 128 bytes; nothing when a file is empty |
| `KeyFiles.BytesOfWord` | FsRover/cryptodlg.cpp:266-273 | a register is added from its most significant byte on |
| `KeyFiles.DigitsKey` | FsRover/cryptodlg.cpp:238-317 | the file "123456789" puts 34 0B C6 D9, the complement of the check value, on places 32 to 35 |
| `KeyFiles.SameKey` | FsRover/cryptodlg.cpp:310-316 | the same files in another order give the same key |
| `Icns.DecodesEncoding` | FsRover/imageview.cpp:618-653 | any run-length encoding of a plane decodes to it, and decoding stops right after it |
| `Icns.DecodedIsEncoding` | FsRover/imageview.cpp:618-653 | whatever is accepted is an encoding of the result |
| `Icns.DecodeSample` | FsRover/imageview.cpp:618-653 | ten bytes that decode to fifteen values |
| `Icns.BigEndianOf` | FsRover/imageview.cpp:567-572 | four bytes, most significant first, are read as the number they stand for |
| `Icns.RlePlane` | FsRover/imageview.cpp:618-653 | writes every fourth byte; other channels stay untouched, also on bad data |
| `Icns.FourDecode` | FsRover/imageview.cpp:748-753 | encodings back to back decode independently |
| `Icns.ArgbPlanes` | FsRover/imageview.cpp:741-753 | alpha, red, green and blue end up in their channels |
| `Icns.Walk` | FsRover/imageview.cpp:693-729 | accepted exactly when the payload is partitioned into blocks, and into which |

## Left out

- Windows, dialogs, painting, menus, the Dokan driver, CNG hashes, the filesystem library and the md4c parser: user interface and code that is not part of this model; reads are a byte source, md4c an arbitrary callback sequence.
- SIMD kernels, IDCT, colour conversion, HDR, DC prediction, dequantisation and zigzag order: a JPEG block is its DC difference and the (index, value) pairs of its AC coefficients.
- Pixels, predictions and later blocks of a JPEG scan: `FirstBlock` reads one block from the start of a segment.
- Progressive JPEG scans and restart intervals: they use the same Huffman decoder.
- PNG samples of fewer than eight bits, sixteen-bit samples, palettes and transparency: rows are modelled as bytes, interlaced images for eight-bit samples without added alpha.
- GIF palettes, transparency and frame disposal: a cell holds the symbol painted there.
- GIF code sizes 0 and 1: the round trip is stated from size 2 on, as the format demands; the decoder's own behaviour is modelled for every size.
- UTF-8 decoding, entity lookup, heading slugs and case mapping: text runs are given as UTF-16, the last two are parameters; a code block split inside a multi-byte character is not covered.
- RTF features the renderer never writes: the reader knows control words and symbols, groups, font and colour tables and \u with one fallback character.
- Fixed-size tables and byte vectors that no property addresses in place (Huffman tables, the GIF dictionary, inflate's output) are sequence fields; aliasing between them is not modelled. Rows, pools, planes and pixels stay arrays.
- Or-ing bits into a buffer is written as addition; the invariants show that the bits are disjoint. Bit reversal by masks (stb_image.h:4107-4114) is its mathematical definition.
- A CRC register is a sequence of bits, so one proof serves both widths.
- Allocation failures, integer widths beyond those stated in contracts, and int overflow of indents and list numbers.
- The worker model assumes that waits do not fail, thread handles are not reused and sequence numbers do not wrap; how soon a task is cancelled is not modelled, and progress is stated as what the worker's own steps lead to.
- The hex viewer and the list assume that files do not change while shown; a read gives no more than asked for.
- The three clients are modelled apart from each other: tasks of the others only delay results, which may come at any time.
- Key files are given as the bytes that could be read; one that cannot be opened counts as empty, which the dialog refuses in the same way.
- The ICNS container check before the block walk, premultiplication, legacy masks and the choice of the best icon.
- Sorting and formatting of the partition list, navigation history, disk maps, the game.
- MdRtf.Renderer.LayoutWords: states only that paragraph formatting adds no character; which indents, spacing and tab stops are chosen is not specified.
- MdRtf.Renderer.FontWords: the same for fonts, sizes and colours, here and in the span callbacks.
- JpegCode.FirstBlock: speaks of tables that misread nothing; for the others Jpeg.Decoder.DecodeDC and DecodeAC say when a block is still right.
- Overrun.AcceptedOverrun: no stream at the bound is given; which streams are accepted is stated exactly by Zlib.DoZlib.
- Zlib.DoZlib: does not model an expandable buffer of no bytes, on which the source does not terminate.
