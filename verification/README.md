# Formal model of RetroTuner3DS: image encoders, JSON tokenizer, player threads and FTP transfers

This project models, in Dafny, four parts of the repository and proves what they
are for. Everything stands in the `.dfy` files of this directory; check it with
`dafny verify dfyconfig.toml`. Nothing was executed: the statements below are
theorems about the model.

**The image encoders of `library/include/stb_image_write.h`.** Each is an
imperative method over growing buffers, write positions and bit accumulators, and
each is proved to be inverted by a reference decoder written from the standard:
inflate with the zlib wrapper (RFC 1950 and RFC 1951; `Deflate`, `ZlibCodes`,
`Zlib`, `ZlibWriter`, over `StretchyBuffer`), PNG (`Crc`, `Png`, `PngWriter`), the
files of baseline JPEG (ITU-T T.81; `Jpeg`, `JpegWriter` and `JpegTables` for the
entropy coding, `JpegReader`, `JpegHeaders` and `JpegFile` for the whole file), and the
run-length packets of TGA and Radiance HDR (`Tga`, `Hdr`, over
`WriteContext`). `ZlibKnown` has known answers; `Bits` holds the arithmetic of bits and bytes.

**The JSON tokenizer `library/include/jsmn.h`**, in its default build. `Jsmn`
specifies one round of the loop on values, `JsmnParser` is the imperative parser
and refines it, `JsmnRuns` proves what holds of every text (structure, an explicit
stack, counting, resumption), `JsmnText` says on the text alone which texts are
accepted and `JsmnVerdicts` proves that these are, and `JsmnJson` proves what holds of
every JSON text.

**The worker threads of `source/video_player.c`**, as steps over a small state.
`TextureRing` is the ring of textures between the convert and the draw thread,
`WorkerAbort` the acknowledged abort of three workers by the decode thread with
its bounded queues and the latch after a fatal decoder error, `WorkerClosing` who
can still be in the decoder when an abort closes the file and when it can come to
that, and `PlayIntent` the
states of playing, pausing, seeking and buffering. `Queue` is the message
queue of `source/system/util/queue.c` that the threads talk through.

**The transfers of `source/ftp_daemon.c`.** `FtpTransfer` is the protocol between
the server thread, the IO thread and the clients, with the work of the server thread
in any order: what is safe there is safe in the code. `FtpLoop` adds the loops: the
server thread serves the handles one poll found ready, and then takes one reply.
`FtpProgress` proves exactly when all transfers can still be completed under these
loops, `FtpStreams` that a completed store has received all its client sent, and
`FtpWaiting` for how many clients the two threads can come to wait for each
other. `FtpDaemon` has the handlers as imperative code on the daemon's arrays, flags
and message queues; an abstraction function takes these to a state of the protocol,
and each handler is proved to be the step it carries out. `FtpThreads` has the two
loops over these handlers, proved to make the moves of `FtpLoop` in their order.

Three promises turned out not to hold everywhere, and the model says exactly where:
an empty input to the zlib compressor gives no valid stream (`ZlibWriter.Compress`,
`PngWriter.WritePng`), a TGA or JPEG larger than 65535 either way loses its size
(`Tga.WriteTga`, `JpegFile.WriteJpeg`), and a store that receives nothing leaves the old file
(`FtpTransfer.StoreAsAsked`). Four more are behaviours of the threads, each with the
exact condition. A pause during the first buffering of a live stream is overruled
(`PlayIntent.WishOverruled`, `PlayIntent.RunOverruled`, `PlayIntent.MenuRestores`).
The convert thread may still be clearing decoded images when a file is closed, just
when the video decoder had yet to pass that request on as the abort began
(`WorkerClosing.RaceExactly`). An abort can come to close the file just when the
awaited worker's acknowledgement is not lost in a full queue
(`WorkerClosing.AbortSucceeds`). And the two threads of the FTP daemon can come to wait
for each other, just when there are three clients or more, or two and a queue that
holds nothing (`FtpWaiting.WaitExactly`); short of that, all transfers can be completed
just as long as the replies that must come first fit in their queue
(`FtpProgress.CompletesExactly`).

Concurrency is modelled by runs: a run is any sequence of atomic steps of the
threads, and a theorem about all sequences is one about all interleavings.

## Model

| member | source | states |
|---|---|---|
| StretchyBuffer.Buffer.constructor | library/include/stb_image_write.h:834-845 | a null stretchy buffer is an empty one, and count < capacity holds once there is storage |
| StretchyBuffer.Buffer.Grow | library/include/stb_image_write.h:834-845 | growing by the increment gives capacity 2m+increment (increment+1 from null), keeps the contents, and leaves room |
| StretchyBuffer.Buffer.Push | library/include/stb_image_write.h:826-831 | one byte is appended and the count stays below the capacity |
| StretchyBuffer.Buffer.Truncate | library/include/stb_image_write.h:994 | setting the count back keeps that prefix and the storage behind it |
| StretchyBuffer.Buffer.CopyRaw | library/include/stb_image_write.h:1003-1004 | a raw copy that fits in the storage left over appends its bytes; the storage is not replaced |
| Deflate.FixedCodeFits | library/include/stb_image_write.h:892-897 | every fixed literal/length code of section 3.2.6 of RFC 1951 fits its length |
| Deflate.NoShorterCode | library/include/stb_image_write.h:892-897 | no proper prefix of a fixed code is the code of another symbol |
| Deflate.ReadSymbolAt | library/include/stb_image_write.h:857-897 | a reader that tries longer and longer codes finds exactly the symbol whose code stands in the bits, for all 288 symbols |
| Deflate.StoredHeaderBits | library/include/stb_image_write.h:998-1002 | the five header bytes of a stored block are the bits BFINAL, 00, five unused, LEN and its complement |
| Deflate.InflateStoredAt | library/include/stb_image_write.h:995-1006 | the reference inflate reads a stored block back, ends behind it if it is final and goes on there if not |
| ZlibCodes.LengthTable | library/include/stb_image_write.h:909-910 | the tables of length bases and extra bits are those of section 3.2.5 of RFC 1951, contiguous from 3 to 258 |
| ZlibCodes.DistTable | library/include/stb_image_write.h:911-912 | the tables of distance bases and extra bits are those of section 3.2.5 of RFC 1951, contiguous from 1 to 32768 |
| ZlibCodes.ReadTokenAt | library/include/stb_image_write.h:965-977 | a literal or a length and distance pair, written as symbol, extra bits, reversed 5-bit code and extra bits, is read back as itself for every length 3..258 and distance 1..32767 |
| ZlibCodes.InflateTokensAt | library/include/stb_image_write.h:930-983 | if replaying tokens rebuilds the data then the reference inflate of their bits does |
| ZlibCodes.CopyBackRecurring | library/include/stb_image_write.h:936-940 | copying back byte by byte, also when the copy overlaps its own output, rebuilds any stretch that agrees with the data dist earlier |
| ZlibCodes.ReplaysCopy | library/include/stb_image_write.h:965-974 | a match found in the data extends the replay by its length |
| ZlibCodes.CoversPush | library/include/stb_image_write.h:930-982 | tokens that stand for the data up to i and one that stands at i stand for the data behind it |
| ZlibCodes.StoredBlocksSize | library/include/stb_image_write.h:992-1006 | stored blocks take the data and five bytes for each 32767 begun |
| ZlibCodes.InflateStoredBlocksAt | library/include/stb_image_write.h:995-1006 | a sequence of stored blocks inflates to the data, the last block alone being final |
| ZlibCodes.InflateFixedAt | library/include/stb_image_write.h:923-986 | the whole fixed-Huffman block, its header, tokens, end symbol and fewer than 8 pad bits, inflates to the data |
| Zlib.DecodeStream | library/include/stb_image_write.h:921-922 | the RFC 1950 wrapper around a deflate stream decodes to its data exactly with the right Adler-32 |
| ZlibWriter.Flush | library/include/stb_image_write.h:847-855 | moving whole bytes out leaves the written bits the same and bitcount < 8 |
| ZlibWriter.Add | library/include/stb_image_write.h:888-889 | adding a code appends its bits least significant first (section 3.1.1 of RFC 1951), bitcount < 8 again and the 32-bit accumulator never overflows |
| ZlibWriter.Bitrev | library/include/stb_image_write.h:857-865 | the result holds the code bits in the opposite order |
| ZlibWriter.HuffA | library/include/stb_image_write.h:890 | the bits written are the code most significant bit first |
| ZlibWriter.Huff | library/include/stb_image_write.h:892-897 | the bits written are the fixed code of symbol n, for every n up to 287 |
| ZlibWriter.CountM | library/include/stb_image_write.h:867-873 | the length of the common stretch, at most the limit and at most 258, and maximal |
| ZlibWriter.LongestMatch | library/include/stb_image_write.h:932-941 | no match within the window of 32768 is longer than the one returned, every later entry of the bucket matches less, and none is returned exactly when none reaches 3 |
| ZlibWriter.BetterMatch | library/include/stb_image_write.h:949-963 | exactly whether some entry for the next byte matches longer |
| ZlibWriter.Remember | library/include/stb_image_write.h:942-947 | a full bucket loses its older half before the position is added; buckets stay increasing, below i+1 and at most 2*quality long |
| ZlibWriter.ChooseToken | library/include/stb_image_write.h:930-979 | by the lazy rule: a copy of the last of the longest matches, exactly if there is one of 3 bytes and the next byte has no longer one, otherwise the literal; it stands for the data at i (3 <= len <= 258, 1 <= dist <= min(i, 32767)), and the table invariant is kept |
| ZlibWriter.EmitLength | library/include/stb_image_write.h:968-970 | the bits of the length symbol and its extra bits |
| ZlibWriter.EmitDist | library/include/stb_image_write.h:971-973 | the bits of the reversed distance code and its extra bits |
| ZlibWriter.EmitToken | library/include/stb_image_write.h:965-978 | the bits of one token |
| ZlibWriter.EncodeTokens | library/include/stb_image_write.h:929-983 | the tokens cover the whole input, each is the one of the lazy rule for the hash buckets as filled by the tokens before it, the last three bytes are literals, and the output bits are theirs |
| ZlibWriter.Pad | library/include/stb_image_write.h:984-986 | fewer than 8 zero bits bring the output to a byte boundary |
| ZlibWriter.Store | library/include/stb_image_write.h:992-1007 | the rewrite gives the stored blocks of the data, raw copies included, without ever leaving the capacity of the abandoned output |
| ZlibWriter.StoreBlock | library/include/stb_image_write.h:998-1005 | one block: header bytes and a raw copy inside the capacity |
| ZlibWriter.SumsStep | library/include/stb_image_write.h:1011-1018 | the bound on the sums after n bytes carries over to n+1, below 2^32 up to a block of 5552 |
| ZlibWriter.AdlerStep | library/include/stb_image_write.h:1015-1016 | one byte moves the sums, reduced modulo 65521 or not, along the definition of section 2.2 of RFC 1950 |
| ZlibWriter.AdlerBlock | library/include/stb_image_write.h:1015-1016 | a block of at most 5552 bytes leaves the byte-by-byte sums, with no 32-bit sum wrapping inside it |
| ZlibWriter.AdlerSums | library/include/stb_image_write.h:1009-1019 | the blocked loop ends, also when its first block is empty, with the per-byte Adler-32 sums of every input |
| ZlibWriter.FixedDecodes | library/include/stb_image_write.h:921-986 | the fixed-Huffman output with the trailer decodes to the data |
| ZlibWriter.StoredDecodes | library/include/stb_image_write.h:993-1024 | the stored output with the trailer decodes to the data, for non-empty data |
| ZlibWriter.EmptyFails | library/include/stb_image_write.h:993-1006 | for empty data only the header and trailer are left, which no decoder accepts |
| ZlibWriter.WriteFixed | library/include/stb_image_write.h:921-986 | header, block type, lazy tokens covering the data, end symbol and fewer than 8 pad bits |
| ZlibWriter.WriteBody | library/include/stb_image_write.h:913-1007 | the fixed-code form of the lazy tokens is kept if and only if it has at most the stored size, otherwise the stored blocks; what is kept decodes with the trailer, to the data exactly when there is any |
| ZlibWriter.WriteTrailer | library/include/stb_image_write.h:1020-1023 | the four Adler-32 bytes, most significant first |
| ZlibWriter.Compress | library/include/stb_image_write.h:903-1030 | for every input and quality the reference decoder gives the input back if and only if it is not empty, and the output has at most len + 6 + 5*ceil(len/32767) bytes; the output is the fixed-code form of the lazy tokens unless that is longer than the stored size, then the stored blocks, and the Adler-32 bytes |
| ZlibKnown.OneByteKnown | library/include/stb_image_write.h:903-1030 | known answer: the nine bytes 78 5e 4b 04 00 00 62 00 62 decode to the letter a |
| ZlibKnown.AdlerKnown | library/include/stb_image_write.h:1009-1023 | known answer: the Adler-32 of abc is 024d0127 |
| Crc.Step8Xor | library/include/stb_image_write.h:1073-1077 | eight polynomial steps distribute over exclusive or where the low bits are zero |
| Crc.TableRight | library/include/stb_image_write.h:1037-1071 | each of the 256 table entries is eight steps of the CRC polynomial on its index |
| Crc.TableStepRight | library/include/stb_image_write.h:1075-1076 | one table look-up advances the register by one byte of the bitwise definition |
| Crc.TableCrc | library/include/stb_image_write.h:1032-1079 | the table-driven CRC equals the bitwise CRC-32 of every buffer |
| Crc.CheckValue | library/include/stb_image_write.h:1032-1079 | known answer: the CRC-32 of the digits 1 to 9 is cbf43926 |
| PngWriter.EncodeLine | library/include/stb_image_write.h:1091-1134 | for each filter 0..4, first row and flip setting, the line is the row filtered as the PNG standard says, byte for byte modulo 256 |
| PngWriter.FirstDiffRight | library/include/stb_image_write.h:1115-1125 | the remapped cases of the first pixel are the standard filter with no left neighbour |
| PngWriter.NextDiffRight | library/include/stb_image_write.h:1126-1133 | the remapped cases of the other pixels are the standard filter with a zero row above where there is none |
| Png.FilterFormulas | library/include/stb_image_write.h:1115-1133 | the five filters in terms of the bytes left of, above and diagonally above, Paeth by the nearest of the three to their sum |
| Png.UnfilterFiltered | library/include/stb_image_write.h:1091-1134 | reconstruction (section 9.2 of the PNG specification) of a filtered line gives every byte of the row |
| Png.UnfilterRowsFiltered | library/include/stb_image_write.h:1154-1182 | reconstruction of all filtered rows in order gives the rows |
| Png.FilteredImagePush | library/include/stb_image_write.h:1179-1181 | appending a filter byte and a filtered line extends the filtered image by a row |
| PngWriter.LineCost | library/include/stb_image_write.h:1164-1168 | the estimate is the sum of the absolute values of the signed line bytes |
| PngWriter.FilterRow | library/include/stb_image_write.h:1155-1178 | the line holds the row in the filter chosen: a forced filter as it is, otherwise, for rows of at most 0xffffff bytes, whose estimates all fit in an int, the one of smallest estimate |
| PngWriter.FilterImage | library/include/stb_image_write.h:1152-1182 | every row with its filter byte, exactly (width*n+1)*height bytes |
| PngWriter.Put | library/include/stb_image_write.h:1194-1214 | bytes are placed at the write position and nothing before it changes |
| PngWriter.PutCrc | library/include/stb_image_write.h:1085-1089 | the CRC of chunk type and data, most significant byte first |
| PngWriter.PutChunk | library/include/stb_image_write.h:1195-1215 | length, type, data and CRC of one chunk |
| PngWriter.Frame | library/include/stb_image_write.h:1188-1219 | signature and three chunks fill a buffer of exactly the computed size |
| Png.ReadChunkStep | library/include/stb_image_write.h:1195-1215 | the reference chunk reader accepts a written chunk, with its CRC, and goes on behind it; IEND must be last |
| PngWriter.ThreeChunks | library/include/stb_image_write.h:1193-1215 | the three chunks are read back as header, data and end |
| PngWriter.DatastreamDecodes | library/include/stb_image_write.h:1193-1215 | a framed file decodes to what its header and compressed data decode to |
| PngWriter.HeaderDecodes | library/include/stb_image_write.h:1195-1204 | the header bytes give width, height, depth 8 and the colour type of n channels |
| PngWriter.RowInMemory | library/include/stb_image_write.h:1107-1108 | row r as encoded is the memory at the row address, counted from the last row when flipped |
| PngWriter.HeaderBytes | library/include/stb_image_write.h:1193-1204 | signature, IHDR length and type, sizes most significant byte first, depth, colour type and methods, byte by byte |
| PngWriter.WritePng | library/include/stb_image_write.h:1136-1220 | for all sizes from width 1, 1 to 4 channels, strides of either sign, forced filters or the heuristic, compression levels and flip settings, the reference PNG decoder returns an image, exactly when there is a row; row r of it is the x*n bytes of memory at pixels + stride*r, or at pixels + stride*(y-1-r) when flipped; the first 29 bytes of the file are written out |
| Jpeg.PrefixBeyond | library/include/stb_image_write.h:1433-1470 | a code of length len beyond the largest code of each shorter length is not mistaken for a shorter one |
| Jpeg.ReadCodeAt | library/include/stb_image_write.h:1433-1470 | the DECODE procedure of section F.2.2.3 of ITU-T T.81 on the lists of a DHT segment reads a generated code back as its symbol |
| Jpeg.ExtendUndoes | library/include/stb_image_write.h:1326-1334 | EXTEND of section F.2.2.1 undoes category and extra bits for every nonzero value |
| Jpeg.ReadDcAt | library/include/stb_image_write.h:1363-1372 | a coded DC difference is read back |
| Jpeg.ReadZrlAt | library/include/stb_image_write.h:1389-1395 | runs of 16 zeros are read back as zeros |
| Jpeg.ReadCoefficientAt | library/include/stb_image_write.h:1382-1399 | a run of zeros of any length and a coefficient are read back |
| Jpeg.ReadAcAt | library/include/stb_image_write.h:1373-1402 | all 63 AC coefficients are read back, with or without end of block |
| Jpeg.ReadBlockAt | library/include/stb_image_write.h:1363-1403 | one block is read back, given the DC prediction |
| JpegWriter.StuffFront | library/include/stb_image_write.h:1266-1270 | stuffing works byte by byte |
| JpegWriter.UnstuffStuffed | library/include/stb_image_write.h:1266-1270 | removing stuffed zeros up to a marker undoes stuffing |
| JpegWriter.OrAppends | library/include/stb_image_write.h:1263-1264 | or-ing a code in below the pending bits of the 24-bit window appends it |
| JpegWriter.ShiftOut | library/include/stb_image_write.h:1265-1273 | the top byte of the window is the first 8 pending bits, and the shift keeps the rest |
| JpegWriter.BitSink.PutByte | library/include/stb_image_write.h:1266-1270 | one byte goes out, with a zero behind 255, and the bits written stay the same |
| JpegWriter.BitSink.WriteBits | library/include/stb_image_write.h:1261-1276 | the code is appended to the bits written, fewer than 8 stay pending |
| JpegWriter.CalcBits | library/include/stb_image_write.h:1326-1334 | the category of the value and its extra bits as T.81 defines them, cut to 16 bits, which changes nothing below 2^16; one bit 0 for a zero |
| JpegWriter.LastNonzero | library/include/stb_image_write.h:1374-1377 | the last nonzero AC position, or 0 |
| JpegWriter.EncodeDc | library/include/stb_image_write.h:1363-1372 | the bits of the DC difference |
| JpegWriter.EncodeCoefficient | library/include/stb_image_write.h:1389-1398 | the bits of the run and the coefficient, long runs as several codes of 16 zeros |
| JpegWriter.EncodeAc | library/include/stb_image_write.h:1373-1402 | the bits of the AC coefficients as section F.1.2.2 orders them |
| JpegWriter.ProcessDu | library/include/stb_image_write.h:1363-1403 | the bits of the block are appended and the DC value is returned as the next prediction |
| JpegWriter.ReadScanAt | library/include/stb_image_write.h:1541-1601 | any run of blocks of the three components, each with its own prediction and tables, is read back |
| JpegWriter.FilledDecodes | library/include/stb_image_write.h:1604-1610 | with the last byte filled with ones, zeros stuffed and the EOI marker, the scan decodes to its blocks |
| JpegTables.DcMatch | library/include/stb_image_write.h:1408-1434 | the two hard-coded DC tables are the codes that the lists in the file header generate (section C.2 of T.81) |
| JpegTables.AcMatch | library/include/stb_image_write.h:1410-1470 | the two hard-coded AC tables are the codes that the lists in the file header generate |
| JpegTables.StandardTables | library/include/stb_image_write.h:1408-1470 | component 0 is coded by the tables that the luminance lists generate, components 1 and 2 by those of the chrominance lists |
| JpegTables.OneCoded | library/include/stb_image_write.h:1433-1434 | a DC difference of 1 is coded 010 1 in component 0 and 01 1 in components 1 and 2 |
| JpegReader.SegmentApplied | library/include/stb_image_write.h:1504-1527 | a segment of marker, length and payload is applied to what is known so far, and reading goes on behind it |
| JpegReader.ListRead | library/include/stb_image_write.h:1514-1526 | a table of 16 counts and as many values as they add up to is entered under its class and number |
| JpegReader.SameTables | library/include/stb_image_write.h:1408-1470 | coder tables that match lists of codes match every other specification of the same counts and values |
| JpegHeaders.YACSame | library/include/stb_image_write.h:1410-1417 | the bytes of the DHT segment specify the luminance AC table that the coder table was matched with |
| JpegHeaders.UVACSame | library/include/stb_image_write.h:1421-1428 | so do those of the chrominance AC table |
| JpegHeaders.WriteHeaders | library/include/stb_image_write.h:1502-1528 | a JPEG reader that takes its tables from the segments (annex B of T.81) goes on behind the headers knowing both sizes modulo 65536, sampling factors, quantization tables and four Huffman lists, and takes the scan by the selectors in it |
| JpegFile.EncodeSubsampled | library/include/stb_image_write.h:1556-1576 | a macroblock of four luminance blocks and one of each chrominance, each with its own tables and prediction |
| JpegFile.EncodeFull | library/include/stb_image_write.h:1597-1599 | a macroblock of one block of each component |
| JpegFile.EncodeRow | library/include/stb_image_write.h:1543-1544 | the inner loop codes a row of macroblocks |
| JpegFile.EncodeScan | library/include/stb_image_write.h:1530-1611 | the loops, the fill bits and EOI: the scan decodes to every block, in the component its place says |
| JpegFile.WriteJpeg | library/include/stb_image_write.h:1405-1614 | the file is written just when there are pixels and 1 to 4 components; a JPEG reader that chooses each table by the bytes of the SOS, SOF and DHT segments finds both sizes, the quantization tables and every block, in the order of the macroblocks and in its component, if and only if both sizes are below 65536 |
| WriteContext.Context.Flush | library/include/stb_image_write.h:394-400 | the buffered bytes go out and nothing is lost |
| WriteContext.Context.Write1 | library/include/stb_image_write.h:407-412 | one byte behind everything written, the 64-byte buffer flushed first when it is full |
| WriteContext.Context.Write3 | library/include/stb_image_write.h:414-424 | three bytes behind everything written |
| Tga.WritePixel | library/include/stb_image_write.h:426-457 | the bytes behind the old content: third, second and first component of a colour pixel, then alpha; a grey pixel as it is, with or without alpha |
| Tga.StoredRead | library/include/stb_image_write.h:453-454 | a reader that takes byte 0 as blue, 1 as green, 2 as red and 3 as alpha gets the pixel back |
| Tga.RedPixel | library/include/stb_image_write.h:540-617 | known answer: a file of 22 bytes written down here, its pixel 0, 0, 255, shows one red pixel |
| Tga.NextPacket | library/include/stb_image_write.h:572-601 | a packet of 1 to 128 pixels inside the row; a run packet has equal pixels only |
| Tga.ReadRawPacket | library/include/stb_image_write.h:603-608 | a raw packet is read back in front of anything |
| Tga.ReadRunPacket | library/include/stb_image_write.h:609-613 | a run packet is read back in front of anything |
| Tga.PacksOn | library/include/stb_image_write.h:572-614 | packets behind packets are read back in order |
| Tga.WritePacket | library/include/stb_image_write.h:603-613 | the packet written is read back as its pixels |
| Tga.WriteRow | library/include/stb_image_write.h:568-614 | the packets of a row are read back as exactly its pixels; the loop always advances |
| Tga.FileDecodes | library/include/stb_image_write.h:557-616 | header and rows decode to the image |
| Tga.WriteTga | library/include/stb_image_write.h:540-617 | the run-length coded file decodes to the rows, from the bottom unless flipped, if and only if width and height fit in 16 bits; the 18 header bytes are written out |
| Hdr.FindRun | library/include/stb_image_write.h:729-737 | the first place from x where three equal bytes follow, or the end of the plane |
| Hdr.WriteDumps | library/include/stb_image_write.h:738-744 | dumps of 1 to 128 bytes take the plane up to r |
| Hdr.WriteRuns | library/include/stb_image_write.h:746-756 | runs of 1 to 127 bytes take the plane up to r |
| Hdr.WritePlane | library/include/stb_image_write.h:723-759 | the packets of a component plane are read back as the plane; every loop advances |
| Hdr.PackedDecodes | library/include/stb_image_write.h:718-760 | four packed planes behind the scanline header are read back |
| Hdr.FlatDecodes | library/include/stb_image_write.h:688-704 | a scanline too small or too large for packets is read back pixel by pixel |
| Hdr.WriteScanline | library/include/stb_image_write.h:680-763 | in front of anything, the scanline written is read back as the four component planes; widths from 8 to 32767 begin with 2, 2 and the width, others are four bytes for each pixel in order |
| JsmnParser.Parser.constructor | library/include/jsmn.h:459-463 | the parser starts at position 0, with no token and no superior token |
| JsmnParser.Parser.Alloc | library/include/jsmn.h:106-119 | a token is taken exactly when there is room |
| JsmnParser.Parser.ParsePrimitive | library/include/jsmn.h:135-188 | a primitive up to its delimiter, or the error with the position restored; invalid if a stray character follows printable ones |
| JsmnParser.Parser.ParseString | library/include/jsmn.h:193-263 | a string between its quotes, or the error with the position restored; for any characters and escapes behind the quote and what ends them: invalid exactly at a backslash before no escape or at a digit that is none, a part exactly at the end of the text |
| JsmnParser.Parser.FindOpen | library/include/jsmn.h:337-358 | the last token below n that is not closed, or -1 |
| JsmnParser.Parser.OpenContainer | library/include/jsmn.h:281-307 | a container token is added under the superior token |
| JsmnParser.Parser.CloseContainer | library/include/jsmn.h:308-360 | the last open token is closed if it is of the same kind, otherwise the text is invalid |
| JsmnParser.Parser.CommaSuper | library/include/jsmn.h:379-396 | after a key and its value the last open container is the superior token again |
| JsmnParser.Parser.TokenRound | library/include/jsmn.h:275-441 | one round of the loop is one step of the specification |
| JsmnParser.Parser.CountRound | library/include/jsmn.h:275-441 | one round without tokens counts the same |
| JsmnParser.Parser.Parse | library/include/jsmn.h:268-453 | the run on a token array ends with the result, tokens and parser state of the specification; for any lexemes and tail of the text the result is the one that brackets, tail and room decide; string and primitive tokens stay clean; it terminates on every text |
| JsmnParser.Parser.CountTokens | library/include/jsmn.h:268-453 | the run with no token array returns the count of the specification; for any lexemes and tail of the text the number of those that are tokens, or the error of the tail |
| JsmnRuns.StepWithMore | library/include/jsmn.h:106-119 | a step that does not run out of tokens is the same with a larger array |
| JsmnRuns.Resume | library/include/jsmn.h:172-221 | after running out of tokens, going on with a larger array that holds the old tokens ends in the same tokens, state and result as one run with the larger array |
| JsmnRuns.StepCounts | library/include/jsmn.h:275-441 | each step adds to the tokens what it adds to the count |
| JsmnRuns.NoMemCounts | library/include/jsmn.h:106-119 | where a run is out of tokens the count is larger than the array |
| JsmnRuns.Sizing | library/include/jsmn.h:268-453 | a run that succeeds returns what the run without tokens returns, the number of tokens; and an array of at least that size is never too small |
| JsmnRuns.StepShaped | library/include/jsmn.h:275-441 | on any text, after every step finished tokens lie in the text between their brackets or quotes, are ordered by start and are pairwise nested or disjoint |
| JsmnRuns.RunShaped | library/include/jsmn.h:275-452 | the same for whole runs; success means every token is closed and the returned count is the number of tokens |
| JsmnRuns.ScanFindsTop | library/include/jsmn.h:337-358 | the backward scan finds the top of the stack of open containers, and scanning on finds the one below |
| JsmnRuns.AddStack | library/include/jsmn.h:281-307 | a new container is pushed on that stack; a finished token leaves it alone |
| JsmnRuns.CloseStack | library/include/jsmn.h:308-360 | closing succeeds exactly when the top of the stack is of the same kind; it pops the stack and the superior token is the new top |
| JsmnRuns.StepStack | library/include/jsmn.h:275-441 | the parser without a stack refines one with an explicit stack, for every character: push, pop, error on a mismatch, or nothing |
| JsmnText.ScanOver | library/include/jsmn.h:205-257 | characters but quote, backslash and NUL, the eight escapes and u with four hex digits are passed over, however they follow each other |
| JsmnText.ScanEnd | library/include/jsmn.h:205-263 | behind them: the quote ends the string; the end of the text, also inside an escape, leaves it unfinished; anything else behind a backslash or among the hex digits is an error |
| JsmnText.ScanPrimitiveOver | library/include/jsmn.h:144-164 | printable characters that end no primitive are passed over |
| JsmnVerdicts.EveryTextReads | library/include/jsmn.h:268-453 | every text, from every position, is a row of lexemes and a tail: its end, a string without its quote, or a stray character |
| JsmnVerdicts.RunReads | library/include/jsmn.h:268-453 | for every text, state and room, and any lexemes and tail of the text: success exactly when brackets match and nothing is open at the end; a part exactly when a bracket or a string is open there; invalid exactly when the first fault is a bad escape, a bad hex digit, a stray character or a bracket that does not match; out of tokens exactly when one more is needed first |
| JsmnVerdicts.CountReads | library/include/jsmn.h:268-453 | the same for the run without tokens, which knows no brackets |
| JsmnVerdicts.StringClean | library/include/jsmn.h:193-263 | between the quotes of a string token found there are allowed characters and escapes only |
| JsmnVerdicts.PrimitiveClean | library/include/jsmn.h:135-188 | a primitive token found has printable characters only and none that ends it |
| JsmnVerdicts.RunClean | library/include/jsmn.h:268-453 | so it is for every string and primitive token of every run, whatever the outcome |
| JsmnVerdicts.UnknownEscape | library/include/jsmn.h:254-257 | known answer: a string with an unknown escape in an array is invalid, counted or tokenized |
| JsmnVerdicts.InvalidSamples | library/include/jsmn.h:164-167 | known answers: invalid texts, one of each kind |
| JsmnVerdicts.PartSamples | library/include/jsmn.h:444-451 | known answers: texts that are parts |
| JsmnJson.ScanLiteral | library/include/jsmn.h:135-170 | numbers and words end exactly where their text ends |
| JsmnJson.ScanChars | library/include/jsmn.h:193-260 | a printed string, escapes included, ends exactly at its closing quote |
| JsmnJson.RunKey | library/include/jsmn.h:361-378 | a key becomes a string token that the value is counted under |
| JsmnJson.RunMembers | library/include/jsmn.h:275-441 | the members of an object lead to their tokens and sizes |
| JsmnJson.RunItems | library/include/jsmn.h:275-441 | the items of an array lead to their tokens and sizes |
| JsmnJson.RunArray | library/include/jsmn.h:281-360 | a printed array leads to its tokens, its size the number of items |
| JsmnJson.RunObject | library/include/jsmn.h:281-360 | a printed object leads to its tokens, its size the number of keys |
| JsmnJson.RunValue | library/include/jsmn.h:275-441 | any printed value, anywhere in a text, leads to its tokens in pre-order |
| JsmnJson.ParseText | library/include/jsmn.h:268-453 | for every JSON value of RFC 8259, printed with any white space, tokenizing with enough tokens succeeds with exactly the pre-order traversal: kinds, start and end of each span, and sizes |
| Queue.Queue.constructor | source/system/util/queue.c:63-113 | an empty queue of the given capacity |
| Queue.Queue.Add | source/system/util/queue.c:115-213 | a full queue refuses; an event that must be unique and is there changes nothing; otherwise the message goes to the back or, by copying the others, to the front |
| Queue.Queue.MoveBack | source/system/util/queue.c:161-166 | every item moves back by one, those behind stay |
| Queue.Queue.MoveForward | source/system/util/queue.c:262-267 | every item moves forward by one, those behind stay |
| Queue.Queue.Get | source/system/util/queue.c:215-304 | the first message is taken out and the others keep their order; an empty queue says to try again |
| Queue.Queue.CheckEventExist | source/system/util/queue.c:306-336 | exactly whether an event is queued |
| Queue.RunConserves | source/system/util/queue.c:115-304 | over any run nothing accepted is lost or handed out twice and the capacity is never exceeded |
| Queue.RunInOrder | source/system/util/queue.c:115-304 | without sends to the front messages come out in the order they went in |
| TextureRing.PositionAhead | source/video_player.c:8307-8313 | the index of a frame d further on, wrapped once |
| TextureRing.PositionIs | source/video_player.c:8307-8313 | counting up with one wrap at a time is the remainder by the ring size |
| TextureRing.PendingCounts | source/video_player.c:2796-2799 | the two indices determine the number of pending frames when it is below the ring size |
| TextureRing.FreeSlot | source/video_player.c:8207-8290 | with room for one more, the slot to be stored into is neither pending nor on the screen, even before the first frame |
| TextureRing.TakeKeepsTrack | source/video_player.c:2866-2874 | the slot taken holds the next frame published |
| TextureRing.ConvertKeeps | source/video_player.c:8207-8313 | every step of the convert thread keeps the ring invariant, between its check and its publication too |
| TextureRing.DrawKeeps | source/video_player.c:2778-2908 | every step of the draw thread keeps it, although its measurements may be out of date |
| TextureRing.RunsSafe | source/video_player.c:2778-2908 | for any ring size above 1, any number of tracks and any interleaving: at most N-1 frames pending; frames selected in published order, complete, none skipped or repeated; the last one stays on the screen; the slot being written is never the one displayed |
| TextureRing.PassTakes | source/video_player.c:2789-2908 | an uninterrupted pass takes one frame of exactly the tracks whose next frame is due and which have a frame pending, if no track is empty or some track has all its frames but one pending, and none otherwise |
| TextureRing.NoStall | source/video_player.c:2809-2812 | when the convert thread finds a ring full, a pass in which every frame is due makes room in it: the tracks cannot wait for each other |
| TextureRing.Player.constructor | source/video_player.c:5180-5192 | a session starts with both indices of every ring at zero |
| TextureRing.Player.MeasureTracks | source/video_player.c:2789-2807 | the pending frames of every track, and whether one is empty or full |
| TextureRing.Player.SelectFrames | source/video_player.c:2778-2908 | the draw index of a track moves on by one, round the ring, exactly when its frame is due, it has one pending, and no track is empty or some track is full; the image shown is the slot before the draw index |
| TextureRing.Player.HasRoom | source/video_player.c:8216-8230 | exactly whether another frame may be pending |
| TextureRing.Player.PublishFrame | source/video_player.c:8305-8313 | the store index of the track advances, no other does |
| WorkerAbort.AbortWorker | source/video_player.c:834-859 | the request is put in front; true exactly if there was room and the expected notification came before the deadline; everything up to it, or all that came, is taken from the notification queue |
| WorkerAbort.PopAnswer | source/video_player.c:849-855 | the acknowledgement is one, and only a worker that has stopped gives it |
| WorkerAbort.DecoderKeeps | source/video_player.c:6049-6887 | every step of the decode thread keeps the handshake of every worker |
| WorkerAbort.OwnKeeps | source/video_player.c:7943-8540 | every step of a worker keeps its own handshake |
| WorkerAbort.OtherKeeps | source/video_player.c:7860-7895 | and that of the others, also when clearing is passed on to the convert thread |
| WorkerAbort.StepKeeps | source/video_player.c:834-859 | the invariant of the whole protocol is kept by every step |
| WorkerAbort.RunsSafe | source/video_player.c:6762-6799 | over all interleavings: a texture is written only while it exists; when textures are freed, by an abort or for the next file, converting is off, not requested and not under way, and the other workers have nothing queued or in hand; after a fatal live decoder error no packet enters the decoder |
| WorkerAbort.AcknowledgedStaysStill | source/video_player.c:834-859 | from the acknowledgement until the next file is open the worker has nothing to do: for the convert thread, should_convert is off and no convert request is queued |
| WorkerAbort.FailureFreesNothing | source/video_player.c:6775-6788 | a full queue or a missing acknowledgement ends the decode thread, and from then on nothing is freed |
| WorkerAbort.ExitedFreesNothing | source/video_player.c:6762-6788 | no step of any thread frees textures once the decode thread has ended |
| WorkerAbort.TexturesMade | source/video_player.c:6349-6366 | textures come to exist only when a file with video has been opened |
| WorkerAbort.CloseFrees | source/video_player.c:6762-6804 | after the close at the end of an abort there are no textures, until another file is opened |
| WorkerAbort.WriteReached | source/video_player.c:7943-8540 | for any queue sizes a run leads to a convert thread writing a texture |
| WorkerClosing.StepNoRace | source/video_player.c:6762-6804 | from the answer of the convert thread on, no step lets it into the decoder while no clearing is still to be passed on to it |
| WorkerClosing.DecoderFreeToClose | source/video_player.c:6762-6804 | if, as the abort begins, the video decoder has nothing to pass on, all three workers are out of the decoder when the file is closed, in every run |
| WorkerClosing.PassOn | source/video_player.c:7860-7895 | what the video decoder still has before the request to clear is done first, and then the convert thread is asked to clear |
| WorkerClosing.ClearWhileClosing | source/video_player.c:7860-7895 | from every state that keeps the invariants, in which an abort begins with something to pass on and the queues hold anything at all, a run of this abort ends with the convert thread clearing images, inside the decoder, while the file is being closed |
| WorkerClosing.RaceExactly | source/video_player.c:6762-6804 | in every reachable state in which an abort begins: the convert thread can be in the decoder when this abort closes the file if and only if the file has video, the player is not closed, and a request to clear is queued at the video decoder or being carried out there |
| WorkerClosing.SeekStarts | source/video_player.c:6936-6967 | a seek that is ordered, carried out, notified and followed by the request to clear reaches both kinds of state; one with the request already at the convert thread is harmless |
| WorkerClosing.LostForever | source/video_player.c:834-859 | a worker that has lost its acknowledgement in a full queue of notifications never gives another one during this abort |
| WorkerClosing.AbortCanClose | source/video_player.c:6762-6804 | from every other state of an abort a run comes to close the file, whatever the queues hold |
| WorkerClosing.AbortSucceeds | source/video_player.c:6762-6804 | in every reachable state of an abort under way: it can come to close the file if and only if the awaited worker has not lost its acknowledgement |
| WorkerClosing.LostReached | source/video_player.c:834-859 | for any queue sizes an acknowledgement can be lost |
| PlayIntent.Player.Open | source/video_player.c:6497-6508 | an opened file is wanted playing, after buffering when it has video and no seek is queued |
| PlayIntent.Player.Command | source/video_player.c:6583-6671 | pause, resume and seek act on state and flag as on the phase and the wish they stand for |
| PlayIntent.Player.Notification | source/video_player.c:6936-7056 | so do the notifications of seeking, clearing, buffering and running out |
| PlayIntent.Player.SeekReached | source/video_player.c:7270-7295 | so does reaching the sought position |
| PlayIntent.Player.HandleAll | source/video_player.c:6583-7295 | every run of events refines the simple machine: the player plays, or will resume, exactly when playing is wanted, and the flag is clear while playing or paused |
| PlayIntent.Player.NowMeans | source/video_player.c:6583-7295 | what each state of the player stands for |
| PlayIntent.PhaseAfter | source/video_player.c:6583-7295 | for every event, the phase it leads to from each phase |
| PlayIntent.EndsExactly | source/video_player.c:6583-7295 | an event ends a phase if and only if it is one of those listed for it |
| PlayIntent.PhaseLasts | source/video_player.c:6583-7295 | over any run a phase lasts if and only if none of the events is one of those: buffering ends, seeking ends, running out |
| PlayIntent.SeekThrough | source/video_player.c:6936-7295 | whatever comes between, a seek goes through being asked and running to buffering, or to playing and pausing without video |
| PlayIntent.Player.Tap | source/video_player.c:1697-1728 | a tap asks for the opposite of what is wanted |
| PlayIntent.Player.MustResume | source/video_player.c:1492-1497 | the home menu resumes later exactly if playing is wanted; while no file is open, if one is being prepared or the flag is set |
| PlayIntent.WishKept | source/video_player.c:6972-7035 | without autoplay, what is wanted after any run is the last pause or resume request |
| PlayIntent.WishOverruled | source/video_player.c:6979-6989 | exactly one event can go against the last request: the first buffering of an autoplayed stream finishing while it is paused |
| PlayIntent.AutoplayOnce | source/video_player.c:6979-6989 | in a run that starts with the flag set autoplay acts at one event at most, the end of a buffering while the flag is still set; if at none, and behind it if at one, the last request counts |
| PlayIntent.RunOverruled | source/video_player.c:6979-6989 | over every run, what is wanted differs from the last request if and only if autoplay acts while playing is not wanted and neither a pause nor a resume request follows |
| PlayIntent.PauseForgotten | source/video_player.c:6979-6989 | a pause during the first buffering of a live stream is forgotten |
| PlayIntent.MenuRestores | source/video_player.c:1485-1530 | while the home menu is open something plays if and only if autoplay acts meanwhile; pausing for it and resuming if wanted restores the wish except when it was not wanted and autoplay acts |
| FtpTransfer.FreeSlot | source/ftp_daemon.c:2710-2743 | the first read slot not in use |
| FtpTransfer.SlotFree | source/ftp_daemon.c:2703-2731 | as many slots as clients and one to a client at most: a client without a slot finds one free |
| FtpTransfer.RegisterKeeps | source/ftp_daemon.c:2703-2770 | a read command is registered in a free slot, which always exists |
| FtpTransfer.PieceRead | source/ftp_daemon.c:2650-2676 | the next piece of the file goes behind what is on its way, and a short one completes it |
| FtpTransfer.ReadSlotKeeps | source/ftp_daemon.c:2635-2697 | a turn of the read loop keeps the invariant of every client |
| FtpTransfer.ChunkKept | source/ftp_daemon.c:1910-1922 | a chunk that does not fill the store buffer is kept in it |
| FtpTransfer.ChunkSent | source/ftp_daemon.c:1910-1942 | a full buffer or the end of the data is sent on so that the file will get exactly what was received |
| FtpTransfer.ReceiveKeeps | source/ftp_daemon.c:1889-1977 | every receive keeps the invariant, the store offset below the buffer size again |
| FtpTransfer.CommandDone | source/ftp_daemon.c:2778-2796 | a write command leaves the file and the commands still queued with the same outcome |
| FtpTransfer.WriteKeeps | source/ftp_daemon.c:2778-2829 | carrying out a write command keeps the invariant of every client |
| FtpTransfer.PieceSent | source/ftp_daemon.c:2298-2340 | a piece sent on goes behind what the client has; at the end of the file it has the file |
| FtpTransfer.StoreDone | source/ftp_daemon.c:2348-2375 | the answer to a store finds the file as promised and nothing on its way |
| FtpTransfer.StepKeeps | source/ftp_daemon.c:1837-2829 | every step of either thread keeps the invariant, and every transfer it completes is delivered |
| FtpTransfer.RunsDeliver | source/ftp_daemon.c:1837-2829 | in every interleaving of clients without faults: a completed retrieve has sent exactly the bytes of the file in order; a completed store has left the old content, if appending or if nothing came, followed by what was received; at each receive there is room in the buffer; a slot is free for every read command; each queue has at most one message over its limit, in the hands of the thread that waits |
| FtpTransfer.OneCompletion | source/ftp_daemon.c:2188-2253 | for each client, transfers accepted are completed once or still going on |
| FtpTransfer.StoreAsAsked | source/ftp_daemon.c:2784-2793 | a store leaves what the command asks for if and only if something was received, or it appends, or the file was empty |
| FtpLoop.LoopRuns | source/ftp_daemon.c:2425-2880 | a run of the two loops, the handles of one poll served in order before one reply is taken, is a run of the transfer protocol, whose theorems hold of it |
| FtpLoop.LoopDelivers | source/ftp_daemon.c:2425-2880 | however the two loops interleave, every completed transfer is delivered, and each thread waits for one message at most |
| FtpStreams.DataTaken | source/ftp_daemon.c:1896-1945 | of the data on the socket a store takes the first bytes, as many as there are or the buffer has room for; the end mark goes with an empty chunk alone, and a full buffer or the end is sent on with all that is held |
| FtpStreams.RunFlows | source/ftp_daemon.c:2425-2880 | over any run in which each socket hands out its stream in order and ends when nothing is left: what a store has received and what is left make up its stream, and behind its end mark nothing is left |
| FtpStreams.StoresWhole | source/ftp_daemon.c:2425-2880 | in every such run of the loops, from the start: every completed store has received its whole stream and has left it in the file, behind the old content if it appends or the stream is empty |
| FtpStreams.StreamStored | source/ftp_daemon.c:2425-2880 | for every stream, file and all limits there is such a run, which completes the store of the stream |
| FtpLoop.EmptyStoreKept | source/ftp_daemon.c:2425-2880 | for every file and all limits there is a run of the loops that completes a store of nothing, and the old content stays |
| FtpLoop.ComingAlike | source/ftp_daemon.c:2496-2593 | what the rest of a round sends does not depend on what the IO thread does meanwhile |
| FtpProgress.StuckExactly | source/ftp_daemon.c:1853-2812 | no step of either loop is possible exactly when the server thread waits for room in the queue of the IO thread and the IO thread for room in that of the server thread |
| FtpProgress.VisitDue | source/ftp_daemon.c:2635-2701 | a visit of a slot leaves the replies there are and are to come the same in number |
| FtpProgress.ExecuteDue | source/ftp_daemon.c:2703-2829 | so does a command that is taken, while another must be before the round can end |
| FtpProgress.RunDoomed | source/ftp_daemon.c:2425-2880 | once the replies to come, before the server thread has sent the rest of its round and looks for one, are too many for its queue, that stays so in every run |
| FtpProgress.CompleteAll | source/ftp_daemon.c:2425-2880 | from every other state that keeps the invariant a run of the loops completes every transfer |
| FtpProgress.CompletesExactly | source/ftp_daemon.c:2425-2880 | in every reachable state of the loops, for any limits: some continuation completes every transfer if and only if the replies that must come, before the commands on their way and those of the rest of the round fit in the queue of the IO thread, fit in the queue of the server thread; they are counted from the slots, files and commands |
| FtpWaiting.ComingFrom | source/ftp_daemon.c:2496-2593 | in one round each client sends at most one command, and only one that may still send |
| FtpWaiting.FewNeverWait | source/ftp_daemon.c:2425-2880 | one client, or two clients and queues that hold a message each, never bring the two threads to wait for each other, in any run |
| FtpWaiting.ManyCanWait | source/ftp_daemon.c:2425-2880 | three clients or more, or two and a queue that holds nothing, can: one retrieves while the others store, round by round |
| FtpWaiting.WaitStuck | source/ftp_daemon.c:2425-2880 | so many clients are brought to a state in which no step of either loop is left and no transfer can be completed |
| FtpWaiting.WaitExactly | source/ftp_daemon.c:2425-2880 | for any sizes of buffer and queues: the two threads can come to wait for each other if and only if there are three clients or more, or two and a queue that holds nothing; the code has 4 clients and 4 messages a queue |
| FtpDaemon.Channel.Send | source/system/util/queue.c:115-213 | a message goes behind the others, or waits for room when the queue is full |
| FtpDaemon.Channel.Take | source/system/util/queue.c:215-304 | the first message comes out, and a sender that waits puts its own at the end |
| FtpDaemon.ReadSlots.Clear | source/ftp_daemon.c:1706-1713 | the entry is not in use any more, no other changes |
| FtpDaemon.ReadSlots.FindFree | source/ftp_daemon.c:2710-2731 | the search over the entries finds the first one not in use |
| FtpDaemon.Clients.Receive | source/ftp_daemon.c:1889-1977 | on the buffers, offsets and flags of all clients: bytes go into the buffer of one client at its offset, a full buffer or the end of the data gives a write command and an empty buffer, every later command appends, and no other client is touched |
| FtpDaemon.Clients.Clear | source/ftp_daemon.c:1688-1698 | the client is as before any transfer, no other is touched |
| FtpDaemon.Daemon.RetrieveBegin | source/ftp_daemon.c:1837-1887 | on flags and queue, the step that asks for the file once: no second command for the same transfer |
| FtpDaemon.Daemon.StoreData | source/ftp_daemon.c:1889-1977 | on buffers and queue, the receive step of the protocol |
| FtpDaemon.Daemon.ReadOne | source/ftp_daemon.c:2641-2695 | on the arrays of the read slots and the queue, the read step of the protocol: a piece of at most the buffer size at the offset of the slot, which is cleared at the end of the file |
| FtpDaemon.Daemon.ProcessRead | source/ftp_daemon.c:2635-2701 | every slot in use gets one turn, in order, up to where the IO thread has to wait |
| FtpDaemon.Daemon.CommandRead | source/ftp_daemon.c:2703-2776 | registration in the first free slot, or an error reply |
| FtpDaemon.Daemon.CommandWrite | source/ftp_daemon.c:2778-2829 | the data replaces or extends the file, nothing is written without data, and only the last command is answered |
| FtpDaemon.Daemon.ProcessCommand | source/ftp_daemon.c:2858-2880 | on the queue, the command step of the protocol |
| FtpDaemon.Daemon.ProcessReply | source/ftp_daemon.c:2298-2378 | on queue and flags, the reply step of the protocol: the data is what the client gets; the end of the file or the answer to a store completes the transfer |
| FtpDaemon.Daemon.Complete | source/ftp_daemon.c:2188-2253 | the flags and the buffer offset of the client are cleared with the completion |
| FtpDaemon.StartDaemon | source/ftp_daemon.c:1358-1378 | the daemon starts in the first state of the protocol, with disjoint arrays for every part |
| FtpThreads.ServerThread.ServeHandle | source/ftp_daemon.c:2496-2593 | on the data of the daemon: one ready handle is served as the loop says, a command, a data connection, or data, of which the first bytes are received, as many as there are or fit in the buffer |
| FtpThreads.ServerThread.Round | source/ftp_daemon.c:2496-2614 | the rest of a round is the moves of the server loop, in its order, up to where the thread has to wait or to the reply it takes |
| FtpThreads.ServerThread.Loops | source/ftp_daemon.c:2425-2618 | round after round, each with what its poll found, the thread makes moves of the server loop and no others, until it has to wait or the polls are used up |
| FtpThreads.StartThreads | source/ftp_daemon.c:2402-2423 | both threads start in the first state of the loops |
| FtpThreads.IoLoops | source/ftp_daemon.c:2846-2885 | pass after pass over the slots, each with one command at most, the thread makes moves of the IO loop and no others, until it has to wait or the passes are done |

## Left out

- WritePng: an image of width 0 is not modelled, because the code then writes the n bytes of a first pixel that has no room in the line buffer; sizes that overflow a 32-bit int are likewise outside.
- CalcBits: magnitudes below 2^30, beyond which the mask overflows an int.
- EncodeDc: DC differences of at most 2047 in magnitude, the category range of T.81: its tables have no code words for others, and the code, which does not check this, gets them from the transform, which is not modelled.
- EncodeCoefficient: AC coefficients of at most 1023 in magnitude, for the same reason.
- EncodeAc: likewise.
- ProcessDu: takes the quantized block as given, in the category range; the DCT, quantization and colour conversion are floating point and are not modelled.
- EncodeScan: likewise takes the quantized blocks, in the order in which its loops come to them.
- WriteJpeg: likewise, and the two quantization tables; how they follow from the quality, and the pixels clamped at the edges, belong to the floating-point part.
- WriteScanline: starts from the RGBE bytes; the step from floats to them is not modelled.
- WriteTga: takes the rows as sequences of pixels instead of one memory block, because the row address is the only thing they are used for; files without run-length packets are left out.
- Add: the part behind the wait for room; the wait itself and a queue being deleted meanwhile are left out.
- Get: the part behind the wait for a message; the wait itself and a queue being deleted meanwhile are left out.
- AbortWorker: the notification queue is the sequence of what it gives, and the deadline the number of attempts made before it; the clock is not modelled.
- LoopRuns: a poll finds any handles ready and a socket gives any bytes; what the server thread does there that concerns no file is left out.
- StoresWhole: a client that breaks off its connection is outside.
- RunsDeliver: two clients that write the same file, or read one being written, at the same time are outside; so are runs in which a wait for room ends after 60 seconds with an error.
- CompletesExactly: a wait for room has no end of its own; in the code it fails after 60 seconds, and the transfer with it. Later polls are taken to find what the completion needs.
- WaitExactly: likewise has no end of a wait.
- Allocation failures, and sizes and capacities beyond a 32-bit int, in all of stb_image_write.h.
- The hash buckets of the compressor are sequences of positions, not stretchy buffers of pointers.
- Blocks with dynamic Huffman codes: never written, so the reference inflate does not read them.
- The text header of HDR files and the BMP writer: plain framing.
- The loops of the PNG filter switch are one method for all types.
- The strict and parent-link builds of jsmn; parsing on with a longer text after an unfinished one.
- The run of jsmn_parse without tokens is a method of its own, `JsmnParser.Parser.CountTokens`.
- Timing in the player: when a frame is due, dropped or must wait for audio is a free choice of each step; so are the decoder's results, speakers, settings and drawing.
- The draw thread reads state and indices as single atomic values, and resetting the ring starts a new session.
- In the abort, the loops inside a worker's command (reading packets, decoding) are one command in progress, which may send notifications.
- Initialization and exit of the player's threads and the init timeout.
- In the FTP daemon: sockets, paths and the control connection, ABOR and REIN, disconnects, failed reads and writes, and the copies kept for the user interface.
- Live streaming, channel scanning, themes and the rest of the user interface.
