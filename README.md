# HexMarksTheSpot decoders, modelled in Dafny

HexMarksTheSpot reads a binary artefact and explains it as a tree. Every
`Node` holds the raw bytes of one labelled field and an ordered list of
`(offset, child)` pairs. A dispatcher probes the stream with each decoder's
`recognizes` test in a fixed order: SQLite, JPEG, NTFS MFT, then Windows
shortcut (LNK). The first decoder that accepts the stream reads it with a
single cursor and appends one child per field.

This project models that core:

- the stream: Python's `read(n)`, `seek` and `tell`, including short reads at
  the end of the file and `read(-1)`;
- the `Node` class and its append-only child list;
- the four decoders, as classes whose methods move the cursor and append
  children;
- the dispatcher's choice of decoder.

Each decoder method is proved against a specification function of the stream's
bytes. The function gives the children the method appends and where it leaves
the cursor. Properties of those functions are proved as lemmas, and each
lemma's statement says what it establishes: tilings of the stream, fixed
offsets, round trips of the text renderings, and the conditions under which a
decode fails.

A node's `log` is a ghost copy of its child list. It records each child's key
and the child's unchanging fields: bytes, name, colour and table value.
Descriptions are kept on the nodes but not in the log.

Files:

- `bytes.dfy`: integer decodings of byte strings, bits, and the hexadecimal,
  binary and decimal renderings;
- `stream.dfy`: the stream;
- `common.dfy`: the node and the sequence lemmas the decoders share;
- `sqlite_format.dfy` and `sqlite.dfy`: the SQLite decoder;
- `jpeg.dfy`: the JPEG decoder;
- `mft.dfy`: the MFT decoder;
- `lnk_format.dfy` and `lnk.dfy`: the LNK decoder;
- `dispatcher.dfy`: the dispatcher.

Where the decoders key a child at a position other than where its bytes start,
the model keeps the key as written. The lemmas `MftFormat.MisalignedKey`,
`LnkFormat.ItemCovers` and `LnkFormat.ArgumentsHoldNameSize` make such cases
explicit. The same holds where a decoder reads differently from the file
format it follows, for instance the single thumbnail byte of JPEG APP0 and
the 2-byte LinkTargetIDList size keyed 4 bytes back.

## Model

| member | source | states |
|---|---|---|
| Streams.ReadEnd | Artefacts/LNKFileParser.py:248 | the cursor after `read(n)` never passes the end; it advances by n when n bytes remain, stops at the end otherwise, and a negative n reads to the end |
| Streams.Stream.constructor | main.py:35 | an opened stream holds its bytes with the cursor at 0 |
| Streams.Stream.Read | Artefacts/JPEGFileParser.py:52 | `read(n)` returns exactly the bytes between the old and the new cursor |
| Streams.Stream.Seek | Artefacts/SQLiteFileParser.py:404 | `seek(p)` puts the cursor at p |
| Bytes.BE | Artefacts/SQLiteFileParser.py:122 | big-endian `int.from_bytes` of n bytes is below 256^n |
| Bytes.LE | Artefacts/LNKFileParser.py:159 | little-endian `int.from_bytes` of n bytes is below 256^n |
| Bytes.BESigned | Artefacts/SQLiteFileParser.py:151 | signed big-endian decoding equals the unsigned value when the top bit is clear and is negative when it is set |
| Bytes.LEBit | Artefacts/LNKFileParser.py:134-137 | bit k of a little-endian integer is bit k mod 8 of byte k div 8 |
| Bytes.Hex | Artefacts/LNKFileParser.py:94 | a width-padded hex rendering has exactly that width (Python's `0<width>x` for every value below 16^width, which covers each call: a byte at width 2, 4- and 2-byte integers at widths 8 and 4) |
| Bytes.Hex2Inverse | Artefacts/LNKFileParser.py:94 | the two hex digits of a byte parse back to the byte |
| Bytes.HexSplitByte | Artefacts/LNKFileParser.py:94 | two more hex digits split off the low byte of the number |
| Bytes.BinaryInverse | Artefacts/LNKFileParser.py:140 | the `08b` rendering parses back to its number |
| Bytes.BinaryDigit | Artefacts/LNKFileParser.py:140 | digit width-1-k of the binary rendering is '1' exactly when bit k is set |
| Bytes.AsciiIgnore | Artefacts/SQLiteFileParser.py:318 | the ASCII decoding with errors ignored is no longer than its bytes, and is exactly as long when every byte is below 128 |
| Bytes.BytesRepr | Artefacts/JPEGFileParser.py:33 | `str(bytes)` is `b`, a quote, and the same quote at the end; the quote is `"` exactly when the bytes hold a single quote and no double quote |
| Common.Node.constructor | common.py:5-11 | the node keeps its bytes, description, name and table value; an empty or missing colour is replaced by a random one; no children |
| Common.Node.AddChild | common.py:14-16 | appends the pair `(key, node)` whatever the key and returns the node |
| Common.Node.AddMoreDescriptionContent | common.py:18-19 | appends to the description and changes nothing else |
| Common.Node.SearchChild | common.py:21-25 | finds the first child with the key in insertion order, and reports the missing key exactly when no child has it |
| Common.Field | Artefacts/JPEGFileParser.py:29-42 | a field keyed at the cursor before its read holds the bytes at its offset whenever the stream reaches that far |
| Common.Piece | Artefacts/SQLiteFileParser.py:338-367 | a child keyed at `tell() - len` after reading len bytes holds the clamped slice, and its key is its offset when the bytes are all there |
| Common.Taken | Artefacts/SQLiteFileParser.py:110-116 | a child keyed at `tell() - n` after `read(n)` is keyed at the cursor plus what was read minus n |
| SqliteFormat.IsSqlite | Artefacts/SQLiteFileParser.py:429-434 | the stream is recognised exactly when its first 16 bytes are "SQLite format 3" and a NUL |
| SqliteFormat.HeaderRows | Artefacts/SQLiteFileParser.py:270-311 | the database-header table has 23 rows in each column |
| SqliteFormat.HeaderSize | Artefacts/SQLiteFileParser.py:12-34 | the header rows add up to 100 bytes, with the page size at 16..18 and the auto-vacuum field at 52..56 |
| SqliteFormat.ShadeAfterClosedForm | Artefacts/SQLiteFileParser.py:105-108 | after k calls of `get_next_color(5)` every channel has advanced by 5k modulo 256 |
| SqliteFormat.ColorText | Artefacts/SQLiteFileParser.py:108 | the colour text is seven characters starting with '#' |
| SqliteFormat.ColorTextInverse | Artefacts/SQLiteFileParser.py:108 | the three digit pairs of the colour text parse back to the three channels |
| SqliteFormat.HeaderAligned | Artefacts/SQLiteFileParser.py:313-324 | with the 100 header bytes present, row i is keyed at its cumulative offset (0, 16, 18, 19, ..., 96), holds exactly its own bytes, its name, and the (i+1)-th colour of the loop |
| SqliteFormat.HeaderTiles | Artefacts/SQLiteFileParser.py:313-324 | the header rows' bytes, concatenated in order, are the stream's prefix up to the rows' end, or all of a shorter stream |
| SqliteFormat.HeaderCovers | Artefacts/SQLiteFileParser.py:270-324 | the 23 database-header children hold exactly the stream's first 100 bytes (all of a shorter stream) |
| SqliteFormat.StoredLast | Artefacts/SQLiteFileParser.py:325-327 | a non-empty name bound by row k and by no later row with the same name keeps row k's bytes |
| SqliteFormat.StoredFields | Artefacts/SQLiteFileParser.py:330-334 | after the header loop, `get_field` finds "Page size" and "Auto-vacuum" holding the bytes at 16..18 and 52..56 |
| SqliteFormat.PageSizeNeedsBytes | Artefacts/SQLiteFileParser.py:330-331 | a non-zero page size means the stream holds more than 16 bytes |
| SqliteFormat.Chunk | Artefacts/SQLiteFileParser.py:120-121 | each slice `a[i:i+2]` holds one or two bytes |
| SqliteFormat.PointersOfPairs | Artefacts/SQLiteFileParser.py:118-125 | on 2n bytes, `parse_cell_pointer` returns n values, the k-th being bytes 2k and 2k+1 big-endian, in order |
| SqliteFormat.CellPointerAt | Artefacts/SQLiteFileParser.py:120-124 | the k-th cell-pointer child and value come from the k-th slice, all keyed at the same `tell() - 2` |
| SqliteFormat.InsertPermutes | Artefacts/SQLiteFileParser.py:378 | inserting adds exactly the one element |
| SqliteFormat.InsertSorted | Artefacts/SQLiteFileParser.py:378 | inserting into a sorted list keeps it sorted |
| SqliteFormat.SortSorted | Artefacts/SQLiteFileParser.py:376-378 | `sort()` gives an ascending permutation of its input |
| SqliteFormat.SortedEnds | Artefacts/SQLiteFileParser.py:378-383 | the first offset is the smallest and the last the largest |
| SqliteFormat.Deltas | Artefacts/SQLiteFileParser.py:381 | there is one interval fewer than there are offsets |
| SqliteFormat.DeltasSum | Artefacts/SQLiteFileParser.py:381 | the intervals add up to the last offset minus the first |
| SqliteFormat.DeltasOfSorted | Artefacts/SQLiteFileParser.py:381 | the intervals of sorted offsets are never negative |
| SqliteFormat.PayloadsAdvance | Artefacts/SQLiteFileParser.py:385-386 | non-negative intervals that fit in the stream move the cursor by exactly their sum |
| SqliteFormat.Offsets | Artefacts/SQLiteFileParser.py:376-378 | the sorted offsets are the cell pointers plus the page size |
| SqliteFormat.GapsEndAtPageSize | Artefacts/SQLiteFileParser.py:376-386 | with every cell pointer between the array's end and the page size, the unparsed gap and the payloads end exactly at the page size |
| SqliteFormat.NoCellsNoGaps | Artefacts/SQLiteFileParser.py:376-389 | no gap or payload child is added exactly when no cell pointer was read (fewer than two offsets), in particular when the cell count is 0 |
| SqliteFormat.Kind | Artefacts/SQLiteFileParser.py:258-263 | type bytes 0x02, 0x05, 0x0A and 0x0D, and only those, select the four handlers |
| SqliteFormat.PageTypeNameAgrees | Artefacts/SQLiteFileParser.py:59-75 | `determine_page_type` names a type exactly for the four bytes the page loop has a handler for |
| SqliteFormat.PageOffsetValues | Artefacts/SQLiteFileParser.py:81-103 | `get_page_offset` returns the offset unchanged on page 1 and otherwise subtracts n page sizes and n - 1 |
| SqliteFormat.CellContentStart | Artefacts/SQLiteFileParser.py:150-152 | the described cell-content start is never 0 |
| SqliteFormat.CellContentStartRange | Artefacts/SQLiteFileParser.py:150-152 | the value is 65536 exactly for 00 00, otherwise the signed 16-bit value, and it is negative exactly from 0x80 on |
| SqliteFormat.PageEnd | Artefacts/SQLiteFileParser.py:127-251 | no handler moves the cursor back or past the end |
| SqliteFormat.PageConsumption | Artefacts/SQLiteFileParser.py:127-251 | interior-index reads one byte; the others read a full page when it fits and their fixed fields fit in it; an unknown page reads a page size |
| SqliteFormat.PageAdvances | Artefacts/SQLiteFileParser.py:127-251 | every handler started before the end reads at least one byte, so the page loop terminates |
| SqliteFormat.PageWalk | Artefacts/SQLiteFileParser.py:401-423 | the loop dispatches at least one page and stops where one more page size would pass the end |
| SqliteFormat.PeekAtEnd | Artefacts/SQLiteFileParser.py:403-419 | a peek at the end steps back one byte, sees type 0, and reads the last byte again as an unknown page |
| SqliteFormat.UnknownPage | Artefacts/SQLiteFileParser.py:412-419 | an unknown type byte adds one red child of a page size, named after the counter |
| SqliteFormat.InteriorIndexOneByte | Artefacts/SQLiteFileParser.py:127-131 | an interior-index page consumes one byte and the next peek is one byte on |
| SqliteFormat.PeekRead | Artefacts/SQLiteFileParser.py:403-404 | `read(1)` then `seek(tell() - 1)` sees the type byte and leaves the cursor where the handler starts |
| SqliteFormat.WalkStep | Artefacts/SQLiteFileParser.py:403-423 | one dispatched page either ends the loop with the whole layout appended or moves on a page with the rest still to come |
| Sqlite.SqliteParser.constructor | Artefacts/SQLiteFileParser.py:50-57 | no fields parsed, no page size, the colour at 33 33 33, the counter at 0 |
| Sqlite.SqliteParser.Recognizes | Artefacts/SQLiteFileParser.py:429-434 | the answer is the 16-byte signature test |
| Sqlite.SqliteParser.GetNextColor | Artefacts/SQLiteFileParser.py:105-108 | each channel advances by the size modulo 256 and the new colour's text is returned |
| Sqlite.SqliteParser.ParseUnknownData | Artefacts/SQLiteFileParser.py:110-112 | reads `interval` bytes and appends one red child keyed at `tell() - interval` |
| Sqlite.SqliteParser.ParsePayload | Artefacts/SQLiteFileParser.py:114-116 | reads `interval` bytes and appends one "Payload" child |
| Sqlite.SqliteParser.ParseCellPointer | Artefacts/SQLiteFileParser.py:118-125 | returns the big-endian value of every 2-byte slice in order and appends one child per slice |
| Sqlite.SqliteParser.AddCellPointer | Artefacts/SQLiteFileParser.py:121-124 | one cell pointer: its big-endian value and a child named after it |
| Sqlite.SqliteParser.AddRemainder | Artefacts/SQLiteFileParser.py:166-174 | the rest of the page becomes one child only when something was read |
| Sqlite.SqliteParser.AddCellContentStart | Artefacts/SQLiteFileParser.py:148-152 | the cell-content start is described with 0 read as 65536 |
| Sqlite.SqliteParser.AddFragmentedNamed | Artefacts/SQLiteFileParser.py:238-242 | the leaf-table fragmented-bytes child is named after its value |
| Sqlite.SqliteParser.ParseBtreeHead | Artefacts/SQLiteFileParser.py:135-152 | the four head fields advance the cursor by 7 and append the head's children |
| Sqlite.SqliteParser.InteriorIndexBtree | Artefacts/SQLiteFileParser.py:127-131 | reads the flag byte only and appends its child |
| Sqlite.SqliteParser.InteriorTableBtree | Artefacts/SQLiteFileParser.py:133-174 | appends the interior-table children and leaves the cursor where `PageEnd` says |
| Sqlite.SqliteParser.LeafIndexBtree | Artefacts/SQLiteFileParser.py:176-210 | appends the leaf-index children and leaves the cursor where `PageEnd` says |
| Sqlite.SqliteParser.LeafTableBtree | Artefacts/SQLiteFileParser.py:212-251 | appends the leaf-table children and leaves the cursor where `PageEnd` says |
| Sqlite.SqliteParser.DispatchPage | Artefacts/SQLiteFileParser.py:408-411 | the handler chosen by the type byte appends that page kind's children |
| Sqlite.SqliteParser.ParseHeader | Artefacts/SQLiteFileParser.py:313-327 | the header loop appends one coloured child per row, stores every named row, and advances the colour once per row |
| Sqlite.SqliteParser.AddHeaderRow | Artefacts/SQLiteFileParser.py:314-327 | one row: the next colour, one child, and the name bound when it is not empty |
| Sqlite.SqliteParser.AddRow | Artefacts/SQLiteFileParser.py:315-324 | a row's value is its ASCII text for row 0 and its big-endian number otherwise |
| Sqlite.SqliteParser.ParsePageOneHeader | Artefacts/SQLiteFileParser.py:338-367 | the six page-1 header fields move the cursor from 100 to 112 and the cell count is returned |
| Sqlite.SqliteParser.ParseCellsHeader | Artefacts/SQLiteFileParser.py:338-352 | the flag, first freeblock and cell count, returning the count |
| Sqlite.SqliteParser.ParseContentHeader | Artefacts/SQLiteFileParser.py:354-367 | the content start, fragmented byte count and right-most pointer |
| Sqlite.SqliteParser.ParseGaps | Artefacts/SQLiteFileParser.py:376-389 | the page size joins the cell pointers, they are sorted, and the gaps are appended |
| Sqlite.SqliteParser.ParseIntervals | Artefacts/SQLiteFileParser.py:380-389 | with two or more offsets, one unparsed gap up to the first offset and one payload per interval; otherwise nothing |
| Sqlite.SqliteParser.ParsePayloads | Artefacts/SQLiteFileParser.py:385-386 | `parse_payload` for every interval in order |
| Sqlite.SqliteParser.ParsePageOne | Artefacts/SQLiteFileParser.py:268-389 | page 1 appends the header rows and the page body, sets the page size and auto-vacuum, and stores the named fields |
| Sqlite.SqliteParser.ParseDatabaseHeader | Artefacts/SQLiteFileParser.py:270-334 | the 100-byte header, then the page size and auto-vacuum read from the fields it stored |
| Sqlite.SqliteParser.GetSizes | Artefacts/SQLiteFileParser.py:330-334 | the page size and auto-vacuum are the big-endian values of the stored fields |
| Sqlite.SqliteParser.ReadDatabaseHeader | Artefacts/SQLiteFileParser.py:270-327 | the header loop over the 23 rows ends at offset 100 |
| Sqlite.SqliteParser.ParsePageOneRest | Artefacts/SQLiteFileParser.py:338-389 | page 1 after the header: the page header, the cell pointers and the gaps |
| Sqlite.SqliteParser.Parse | Artefacts/SQLiteFileParser.py:253-423 | the returned "SQLite file" node holds the whole layout, and the counter and cursor end where the page walk ends |
| Sqlite.SqliteParser.ParsePages | Artefacts/SQLiteFileParser.py:267-423 | the `while True` loop produces the layout still to come and stops at the walk's end |
| Sqlite.SqliteParser.PageTurn | Artefacts/SQLiteFileParser.py:268-423 | one loop turn either finishes the layout or makes progress with the rest still to come |
| Sqlite.SqliteParser.ParseCountedPage | Artefacts/SQLiteFileParser.py:401-423 | one dispatched page and the `tell() + page_size > file_size` exit test |
| Sqlite.SqliteParser.CountPage | Artefacts/SQLiteFileParser.py:268-400 | the counter checks at the top of the loop, with the auto-vacuum skip from 2 to 3 |
| Sqlite.SqliteParser.CountPageOne | Artefacts/SQLiteFileParser.py:268-398 | page 1, the counter to 2, and the `continue` exactly when the cursor stands at the page size |
| Sqlite.SqliteParser.ParseNextPage | Artefacts/SQLiteFileParser.py:401-419 | peek at the type byte, dispatch the handler (or an unknown page of a page size), count the page |
| Jpeg.IsJpeg | Artefacts/JPEGFileParser.py:62-66 | the stream is recognised exactly when it starts with FF D8 |
| Jpeg.HeadTiles | Artefacts/JPEGFileParser.py:19-49 | the marker and APP0 children hold the stream's first 21 bytes (all of a shorter stream) in order |
| Jpeg.CoverWithRest | Artefacts/JPEGFileParser.py:52-54 | a final child holding the rest completes a cover of the stream |
| Jpeg.LayoutCoversStream | Artefacts/JPEGFileParser.py:7-60 | the children's bytes, concatenated, are the whole stream |
| Jpeg.SoiLayout | Artefacts/JPEGFileParser.py:23-54 | after SOI, in a stream of at least 21 bytes, the eleven fields sit at fixed offsets and the rest is keyed at 21 |
| Jpeg.NoSoiLayout | Artefacts/JPEGFileParser.py:47-54 | without SOI, one child holds the bytes read and the rest is keyed at 1 |
| Jpeg.JpegParser.constructor | Artefacts/JPEGFileParser.py:4-5 | the parser keeps its stream |
| Jpeg.JpegParser.Recognizes | Artefacts/JPEGFileParser.py:62-66 | the answer is the SOI test |
| Jpeg.JpegParser.AddField | Artefacts/JPEGFileParser.py:35-42 | one APP0 field keyed at the cursor before its read |
| Jpeg.JpegParser.AddLength | Artefacts/JPEGFileParser.py:31-33 | the length field is described by its bytes and their big-endian value |
| Jpeg.JpegParser.ParseApp0 | Artefacts/JPEGFileParser.py:29-42 | the APP0 marker, length and eight fields append as the head |
| Jpeg.JpegParser.ParseApp0Rest | Artefacts/JPEGFileParser.py:35-42 | the eight fixed-size fields after the length |
| Jpeg.JpegParser.AddRemainder | Artefacts/JPEGFileParser.py:52-54 | the rest of the stream, if any, becomes one child keyed one past the last child's key |
| Jpeg.JpegParser.Parse | Artefacts/JPEGFileParser.py:7-60 | the returned "JPEG file" node's children are the layout, which covers the stream |
| MftFormat.IsMft | Artefacts/MFTFileParser.py:89-96 | the stream is recognised exactly when it starts with "FILE" |
| MftFormat.BootSectorSize | Artefacts/MFTFileParser.py:16-42 | the 25 boot-sector rows add up to 512 bytes, with the end marker at 510 |
| MftFormat.BootAligned | Artefacts/MFTFileParser.py:43-46 | with the table's bytes present, each row is keyed at its offset and holds its bytes |
| MftFormat.BootTiles | Artefacts/MFTFileParser.py:43-46 | the table's children, concatenated, are the stream's prefix up to the table's end |
| MftFormat.BootCoversSector | Artefacts/MFTFileParser.py:16-49 | the boot-sector children hold the first 512 bytes and the scan starts right after them |
| MftFormat.MisalignedKey | Artefacts/MFTFileParser.py:44-46 | in a 300-byte stream the end-of-sector marker is keyed at 298, not 510 |
| MftFormat.Slice | Artefacts/MFTFileParser.py:75 | Python slicing: empty when the bounds cross, clamped at the end |
| MftFormat.AttributesOfFullRecord | Artefacts/MFTFileParser.py:72-85 | in a full record, $STANDARD_INFORMATION is bytes 0x30..0x78 and $FILE_NAME starts at 0x78, cut at the record's end |
| MftFormat.RecordsSpaced | Artefacts/MFTFileParser.py:57-65 | accepted records start 1024 bytes apart, each starts with "FILE", and all but the last are full |
| MftFormat.FirstRejectedStops | Artefacts/MFTFileParser.py:59-62 | a block not starting with "FILE" ends the scan |
| MftFormat.TruncatedIff | Artefacts/MFTFileParser.py:82 | the scan fails exactly when an accepted record is too short for $FILE_NAME's length |
| Mft.MftParser.constructor | Artefacts/MFTFileParser.py:7-9 | the parser keeps its stream |
| Mft.MftParser.Recognizes | Artefacts/MFTFileParser.py:89-96 | the answer is the "FILE" test |
| Mft.MftParser.ParseTable | Artefacts/MFTFileParser.py:43-46 | one child per row, keyed at the cursor minus the row's length |
| Mft.MftParser.ParseAttributes | Artefacts/MFTFileParser.py:72-85 | a record's two attribute children are cut from its bytes at 0x30 and 0x60 |
| Mft.MftParser.ScanRecord | Artefacts/MFTFileParser.py:58-69 | stops on a block without "FILE", fails on a short record, and otherwise appends the record |
| Mft.MftParser.AddRecord | Artefacts/MFTFileParser.py:64-69 | a record's node goes under the MFT node, with its attribute children |
| Mft.MftParser.ScanAll | Artefacts/MFTFileParser.py:57-69 | the scan succeeds exactly when no accepted record is short, and then appends every accepted record, each with its $STANDARD_INFORMATION and $FILE_NAME children cut from its bytes |
| Mft.MftParser.ParseEntries | Artefacts/MFTFileParser.py:53-69 | the "Master File Table" node is keyed at the cursor and holds the accepted records, each with its two attribute children |
| Mft.MftParser.Parse | Artefacts/MFTFileParser.py:11-51 | the boot sector and then the MFT node, whose every record carries its two attribute children; on failure, the short record's position |
| LnkFormat.IsLnk | Artefacts/LNKFileParser.py:387-392 | the stream is recognised exactly when it starts with 4C 00 00 00 |
| LnkFormat.LEHex | Artefacts/LNKFileParser.py:87-94 | a little-endian integer prints as its bytes last first |
| LnkFormat.BytesToGuid | Artefacts/LNKFileParser.py:81-96 | the conversion succeeds exactly on 16 bytes, giving 36 characters |
| LnkFormat.Guid | Artefacts/LNKFileParser.py:87-94 | the GUID text has its dashes at 8, 13, 18 and 23 |
| LnkFormat.HexBytesInverse | Artefacts/LNKFileParser.py:94 | bytes printed in order parse back |
| LnkFormat.HexBytesRevInverse | Artefacts/LNKFileParser.py:87-89 | little-endian integers printed in hex parse back to their bytes |
| LnkFormat.GuidParts | Artefacts/LNKFileParser.py:94 | the five runs of digits sit between the dashes |
| LnkFormat.GuidRoundTrip | Artefacts/LNKFileParser.py:81-96 | the 16 bytes can be read back from the GUID text |
| LnkFormat.GuidDigits | Artefacts/LNKFileParser.py:94 | outside the dashes, the GUID text is lower-case hex digits |
| LnkFormat.IsBitSetLE | Artefacts/LNKFileParser.py:134-137 | `is_bit_set` on the raw bytes agrees with the bit of the little-endian integer |
| LnkFormat.ActiveFlags | Artefacts/LNKFileParser.py:124-132 | the flag list has one entry per LinkFlags bit |
| LnkFormat.ActiveFlagsAgree | Artefacts/LNKFileParser.py:124-137 | flag k is marked active exactly when `is_bit_set` finds bit k |
| LnkFormat.BytesToBinary | Artefacts/LNKFileParser.py:139-140 | eight digits per byte |
| LnkFormat.BytesToBinaryBit | Artefacts/LNKFileParser.py:139-140 | digit 8i + 7 - k is '1' exactly when bit k of byte i is set |
| LnkFormat.BytesToBinaryLE | Artefacts/LNKFileParser.py:139-140 | the binary text of little-endian bytes shows the integer's bits |
| LnkFormat.IsValidFiletime | Artefacts/LNKFileParser.py:120-122 | a FILETIME is invalid exactly when it starts with a space |
| LnkFormat.FiletimeCases | Artefacts/LNKFileParser.py:98-112 | a datetime exactly below the last representable microsecond, truncated to microseconds; the out-of-range message past the float bound; the caught overflow exactly at the bound |
| LnkFormat.FiletimeExtremes | Artefacts/LNKFileParser.py:103-112 | eight FF bytes are out of range, and a value at the bound hits the caught overflow |
| LnkFormat.Cut | Artefacts/LNKFileParser.py:158-226 | a child keyed `tell() - back` after reading len bytes is keyed at its offset plus len minus back when the bytes are there |
| LnkFormat.ShowCommandNeedsBytes | Artefacts/LNKFileParser.py:204-207 | an accepted show command means the stream reaches past offset 60 |
| LnkFormat.Items | Artefacts/LNKFileParser.py:238-257 | the ItemID loop ends inside the stream and always adds the terminal child |
| LnkFormat.IdList | Artefacts/LNKFileParser.py:231-257 | the LinkTargetIDList stays inside the stream |
| LnkFormat.LinkInfo | Artefacts/LNKFileParser.py:268-332 | the LinkInfo block stays inside the stream |
| LnkFormat.CountedString | Artefacts/LNKFileParser.py:344-363 | a counted string stays inside the stream |
| LnkFormat.StringData | Artefacts/LNKFileParser.py:338-377 | a successful StringData stays inside the stream |
| LnkFormat.DecodeCases | Artefacts/LNKFileParser.py:142-382 | `parse` raises on a stream too short for the GUID, gives no tree on an unknown show command, raises on bit 5 without bit 2, and otherwise returns the header, the ID list, LinkInfo and StringData |
| LnkFormat.ConcatCut | Artefacts/LNKFileParser.py:147-226 | a field read right after a cover of the stream up to its offset extends the cover |
| LnkFormat.IntroTiles | Artefacts/LNKFileParser.py:147-155 | the header size and GUID cover bytes 0..20 |
| LnkFormat.StampsTile | Artefacts/LNKFileParser.py:158-194 | the flags, attributes and timestamps cover bytes 20..52 |
| LnkFormat.SizesTile | Artefacts/LNKFileParser.py:196-210 | the file size, icon index and show command cover bytes 52..64 |
| LnkFormat.ReservedTiles | Artefacts/LNKFileParser.py:212-226 | the hot key and reserved fields cover bytes 64..76 |
| LnkFormat.PrologueTiles | Artefacts/LNKFileParser.py:147-226 | the fourteen header children cover the 76-byte header |
| LnkFormat.PrologueKeyed | Artefacts/LNKFileParser.py:147-226 | each header child is keyed at its own offset |
| LnkFormat.AccessTimeUnchecked | Artefacts/LNKFileParser.py:171-194 | the access time is converted whatever its first byte, unlike the creation and write times |
| LnkFormat.ItemsShape | Artefacts/LNKFileParser.py:238-257 | the ItemID loop adds size/data pairs closed by one terminal child |
| LnkFormat.ItemCovers | Artefacts/LNKFileParser.py:240-255 | an item of size s covers s bytes from its size field, with its size child keyed s - 2 late |
| LnkFormat.ItemsAtEnd | Artefacts/LNKFileParser.py:240-257 | at the end of the stream the list is only the terminal child, keyed 2 before the end |
| LnkFormat.LinkInfoHeaderFront | Artefacts/LNKFileParser.py:269-285 | the first four LinkInfo fields cover 16 bytes |
| LnkFormat.LinkInfoHeaderBack | Artefacts/LNKFileParser.py:288-300 | the last three LinkInfo header fields cover 12 bytes |
| LnkFormat.LinkInfoHeaderTiles | Artefacts/LNKFileParser.py:269-300 | the LinkInfo header covers its 28 bytes |
| LnkFormat.VolumeIdTiles | Artefacts/LNKFileParser.py:304-328 | the VolumeID block covers its 31 bytes |
| LnkFormat.LinkInfoShape | Artefacts/LNKFileParser.py:268-332 | LinkInfo reads 28 bytes, the 31-byte VolumeID exactly when its flags value is 1, and one byte, covering the block without gap or overlap |
| LnkFormat.CountedStringReads | Artefacts/LNKFileParser.py:344-352 | a counted string reads its 2-byte count c and then exactly 2c bytes |
| LnkFormat.StringDataFails | Artefacts/LNKFileParser.py:338-368 | StringData fails exactly when bit 5 is set without bit 2 |
| LnkFormat.ArgumentsHoldNameSize | Artefacts/LNKFileParser.py:365-368 | the arguments child holds the name-size bytes, not the arguments size it reports |
| Lnk.LnkParser.constructor | Artefacts/LNKFileParser.py:71-74 | the parser keeps its stream |
| Lnk.LnkParser.Recognizes | Artefacts/LNKFileParser.py:387-392 | the answer is the header-size test |
| Lnk.LnkParser.AddNode | common.py:5-16 | appends one uncoloured, named child with its table value |
| Lnk.LnkParser.AddField | Artefacts/LNKFileParser.py:158-226 | one field read at its offset and keyed `tell() - back` |
| Lnk.LnkParser.ParseStamps | Artefacts/LNKFileParser.py:158-194 | the flags, attributes and timestamps move the cursor from 20 to 52, returning the flag bytes |
| Lnk.LnkParser.ParseSizes | Artefacts/LNKFileParser.py:196-210 | succeeds exactly when the show command is 1, 3 or 7, and then appends the three fields |
| Lnk.LnkParser.ParseReserved | Artefacts/LNKFileParser.py:212-226 | the hot key and reserved fields move the cursor from 64 to 76 |
| Lnk.LnkParser.ParseItem | Artefacts/LNKFileParser.py:240-255 | one ItemID: a zero size changes nothing but the cursor, and a non-zero size makes progress and keeps the rest of the list |
| Lnk.LnkParser.ParseItems | Artefacts/LNKFileParser.py:238-257 | the `while True` loop appends the ItemID list |
| Lnk.LnkParser.ParseIdList | Artefacts/LNKFileParser.py:231-257 | the LinkTargetIDList size and items |
| Lnk.LnkParser.ParseLinkInfoFront | Artefacts/LNKFileParser.py:269-280 | the size, header size and flags fields, returning the flags value |
| Lnk.LnkParser.ParseLinkInfoOffsets | Artefacts/LNKFileParser.py:283-300 | the four offset fields |
| Lnk.LnkParser.ParseLinkInfoHeader | Artefacts/LNKFileParser.py:269-300 | the seven header fields, returning the flags value |
| Lnk.LnkParser.ParseVolumeFront | Artefacts/LNKFileParser.py:305-315 | the VolumeID size, drive type and serial number |
| Lnk.LnkParser.ParseVolumeBack | Artefacts/LNKFileParser.py:317-328 | the label offset, data byte and local base path |
| Lnk.LnkParser.ParseVolumeId | Artefacts/LNKFileParser.py:304-328 | the 31-byte VolumeID block |
| Lnk.LnkParser.ParseLinkInfoTail | Artefacts/LNKFileParser.py:304-332 | the VolumeID exactly when the flags value is 1, then the suffix byte |
| Lnk.LnkParser.ParseLinkInfo | Artefacts/LNKFileParser.py:268-332 | appends the LinkInfo block |
| Lnk.LnkParser.ParseCountedString | Artefacts/LNKFileParser.py:344-363 | appends a counted string |
| Lnk.LnkParser.ParseNameSize | Artefacts/LNKFileParser.py:338-341 | under bit 2, appends the name size and returns its bytes; otherwise returns none |
| Lnk.LnkParser.ParsePath | Artefacts/LNKFileParser.py:344-352 | under bit 3, the relative path |
| Lnk.LnkParser.ParseDir | Artefacts/LNKFileParser.py:355-363 | under bit 4, the working directory |
| Lnk.LnkParser.ParseArguments | Artefacts/LNKFileParser.py:365-368 | under bit 5, fails exactly without bit 2, and otherwise appends the arguments child |
| Lnk.LnkParser.ParseIcon | Artefacts/LNKFileParser.py:370-373 | under bit 6, the icon location size |
| Lnk.LnkParser.ParseStringData | Artefacts/LNKFileParser.py:338-377 | fails exactly where StringData does, and otherwise appends it |
| Lnk.LnkParser.ParseIdPart | Artefacts/LNKFileParser.py:231 | the ID list under flag bit 0 |
| Lnk.LnkParser.ParseInfoPart | Artefacts/LNKFileParser.py:268 | LinkInfo under flag bit 1 |
| Lnk.LnkParser.ParseSections | Artefacts/LNKFileParser.py:231-377 | everything after the header, failing exactly where the sections do |
| Lnk.LnkParser.ParseIntro | Artefacts/LNKFileParser.py:147-155 | succeeds exactly when the GUID read gets 16 bytes |
| Lnk.LnkParser.ParseFixed | Artefacts/LNKFileParser.py:158-226 | succeeds exactly on a known show command, and then appends the whole 76-byte header |
| Lnk.LnkParser.ParseInto | Artefacts/LNKFileParser.py:146-382 | each outcome (error, caught show command, tree) is the one `Decode` gives |
| Lnk.LnkParser.Parse | Artefacts/LNKFileParser.py:142-382 | returns the "LNK File" node holding `Decode`'s children, no tree on an unknown show command, or the raised error |
| Dispatcher.Detect | main.py:11-17 | the chosen format passes its test; no format is chosen only when none passes |
| Dispatcher.RecognizedLead | main.py:11-17 | passing a format's test fixes the stream's first byte |
| Dispatcher.AtMostOneRecognized | main.py:11-17 | no stream passes two formats' tests |
| Dispatcher.DetectExact | main.py:11-17 | the chosen format is exactly the one the bytes pass, whatever the order |
| Dispatcher.Recognizes | main.py:15 | a parser's `recognizes` answers its format's test |
| Dispatcher.Build | main.py:16 | builds a new parser of the chosen format over the given stream |
| Dispatcher.GetFileParser | main.py:11-17 | raises exactly when no format passes, and otherwise returns a new parser of the format `Detect` chooses, reading the given stream |
| Dispatcher.Validate | common.py:40-44 | raises exactly when the stream fails the parser's own test |
| Dispatcher.FindNode | main.py:27-31 | the first child with the key, or none exactly when no child has it |

## Left out

- Bytes.Hex: keeps only the low `width` digits, whereas Python prints every digit of a value of 16^width or more. No call passes such a value.
- Descriptions (`info` texts, HTML included) are built on the nodes but not proved about, except where a contract states one; the ghost `log` tracks keys, bytes, names, colours and table values.
- Random colours: a node built without a colour gets a random one; the model records it as absent (`None`), since randomness is not modelled.
- `get_next_color` and `current_color`/`parsed_fields` of the LNK parser are never used by its `parse`, so they are not modelled there; the SQLite parser's are.
- `show_error_popup` and the Tk message box are GUI I/O; the caught show-command error appears as `Ok(None)` instead.
- `print` calls (the debug line in `filetime_to_datetime`, the `recognizes` print in `get_file_parser`, the SQLite "Not enough cellpointer_offsets" line), `print_node`, `main` and `gui.py` are output only and not modelled.
- Datetimes are integer microseconds past 1601-01-01 (`Moment`); calendar formatting is not modelled.
- UTF-8 and UTF-16LE decoding with `errors='ignore'` is kept undecoded (`Decoded(bytes, encoding)`); character decoding is not modelled.
- `get_active_flags` builds an HTML list; the model keeps the list of (flag name, active) pairs before rendering.
- `os.path.getsize(file.name)` is the length of the stream's bytes.
- Streams.Stream.Seek: requires a position inside the stream; seeking past the end, which Python allows, is not modelled because no decoder does it.
- Sqlite.SqliteParser.Parse: requires a non-zero page size. With a page size of 0 the Python code never returns on a non-empty stream: an unknown page reads 0 bytes and the `tell() + page_size > file_size` exit never holds. On the empty stream it raises at the peek's `seek(-1)`, after `tell() == page_size` has sent it round the loop. Both cases are outside the model.
- Lnk.LnkParser.Parse: returns the root rather than storing it in `self.root`; the tree of a failed parse is not described (only which error is raised).
- Mft.MftParser.Parse: the Python code raises `struct.error` from inside `parse_file_name`; the model returns `TruncatedRecord` with the record's position and makes no claim about the partial tree.
- Dispatcher.GetFileParser: returns which parser was built (`Chosen`) rather than a parser object of a common base class.
- Bit 7 (IsUnicode) of the LNK flags is tested but does nothing, so it is not modelled.
- `get_field` has no member of its own: its lookups are the stored-fields map and `GetSizes`.
- The SQLite handlers' descriptions quote `get_page_offset`; only its value (`PageOffsetValues`) is proved, not the descriptions that use it.
