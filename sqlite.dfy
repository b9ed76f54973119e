/** The SQLite decoder's parser object: its fields and the methods that read the stream. */
module Sqlite {
  import opened Bytes
  import opened Streams
  import opened Common
  import opened SqliteFormat

  class SqliteParser {
    const file: Stream
    /** The header fields read so far, by name. */
    var parsedFields: map<string, seq<Byte>>
    var pageSize: Option<nat>
    var autovacuum: Option<nat>
    /** The three channels `get_next_color` advances. */
    var currentColor: seq<Byte>
    var pageCounter: nat

    constructor (file: Stream)
      ensures this.file == file && parsedFields == map[] && pageSize == None && autovacuum == None
      ensures currentColor == [0x33, 0x33, 0x33] && pageCounter == 0
    {
      this.file := file;
      parsedFields := map[];
      pageSize := None;
      autovacuum := None;
      currentColor := [0x33, 0x33, 0x33];
      pageCounter := 0;
    }

    static method Recognizes(file: Stream) returns (b: bool)
      requires file.Valid()
      modifies file`pos
      ensures file.Valid()
      ensures b == IsSqlite(file.data)
    {
      file.Seek(0);
      var header := file.Read(16);
      b := header == Signature;
    }

    method GetNextColor(size: nat) returns (color: string)
      requires |currentColor| == 3
      modifies this`currentColor
      ensures currentColor == NextShade(old(currentColor), size)
      ensures color == ColorText(currentColor)
    {
      currentColor := NextShade(currentColor, size);
      color := ColorText(currentColor);
    }

    /** `parse_unknown_data`: a red node of `interval` bytes keyed at the cursor after the read minus `interval`. */
    method ParseUnknownData(root: Node, interval: int, details: string, name: string)
      requires file.Valid() && root.Valid()
      modifies file`pos, root`children, root`log
      ensures file.Valid() && file.pos == ReadEnd(|file.data|, old(file.pos), interval)
      ensures root.Valid() && root.log == old(root.log) + [Taken(file.data, old(file.pos), interval, Some(name), Some("#FF0000"))]
    {
      var unknownData := file.Read(interval);
      var node := new Node(unknownData, "Unparsed!\n\n" + details, Some(name), Some("#FF0000"), NoValue);
      node := root.AddChild(file.Tell() - interval, node);
    }

    /** `parse_payload`: a "Payload" node of `interval` bytes. */
    method ParsePayload(root: Node, interval: int)
      requires file.Valid() && root.Valid()
      modifies file`pos, root`children, root`log
      ensures file.Valid() && file.pos == ReadEnd(|file.data|, old(file.pos), interval)
      ensures root.Valid() && root.log == old(root.log) + [Taken(file.data, old(file.pos), interval, Some("Payload"), None)]
    {
      var payload := file.Read(interval);
      var node := new Node(payload, "Payload: " + BytesRepr(payload), Some("Payload"), None, NoValue);
      node := root.AddChild(file.Tell() - interval, node);
    }

    /** `parse_cell_pointer`: one node per two-byte slice, all keyed at `tell() - 2`; returns the values in order. */
    method ParseCellPointer(root: Node, cellpointerArrayBytes: seq<Byte>) returns (cellpointerOffsets: seq<int>)
      requires root.Valid()
      modifies root`children, root`log
      ensures cellpointerOffsets == Pointers(cellpointerArrayBytes)
      ensures root.Valid() && root.log == old(root.log) + CellPointerEntries(cellpointerArrayBytes, file.pos - 2)
    {
      ghost var key := file.pos - 2;
      ghost var all := CellPointerEntries(cellpointerArrayBytes, key);
      ghost var l0 := root.log;
      ghost var ps := Pointers(cellpointerArrayBytes);
      cellpointerOffsets := [];
      for k := 0 to ChunkCount(cellpointerArrayBytes)
        invariant root.Valid() && root.log == l0 + all[..k]
        invariant cellpointerOffsets == ps[..k]
      {
        var twoBytes := Chunk(cellpointerArrayBytes, k);
        CellPointerAt(cellpointerArrayBytes, key, k);
        var cellpointer := AddCellPointer(root, twoBytes);
        cellpointerOffsets := cellpointerOffsets + [cellpointer];
        TakeOne(all, k);
        TakeOne(ps, k);
        AppendTwo(l0, all[..k], [all[k]]);
      }
      assert all[..ChunkCount(cellpointerArrayBytes)] == all;
      assert ps[..ChunkCount(cellpointerArrayBytes)] == ps;
    }

    /** One cell pointer of `parse_cell_pointer`, keyed at `tell() - 2`. */
    method AddCellPointer(root: Node, twoBytes: seq<Byte>) returns (cellpointer: nat)
      requires root.Valid()
      modifies root`children, root`log
      ensures cellpointer == BE(twoBytes)
      ensures root.Valid() && root.log == old(root.log) + [Entry(file.pos - 2, twoBytes, Some(CellPointerName(cellpointer)), None, NoValue)]
    {
      cellpointer := BE(twoBytes);
      var node := new Node(twoBytes, "Cell Pointer: " + NatToString(cellpointer), Some(CellPointerName(cellpointer)), None, NoValue);
      node := root.AddChild(file.Tell() - 2, node);
    }

    /** One fixed-size field: `add_child(tell() - len, Node(read(len), ...))` with the cursor at `off` (or the end). */
    method AddPiece(root: Node, ghost off: nat, len: nat, name: Option<string>, info: string) returns (b: seq<Byte>)
      requires file.Valid() && file.pos == Clamp(|file.data|, off) && root.Valid()
      modifies file`pos, root`children, root`log
      ensures file.Valid() && file.pos == Clamp(|file.data|, off + len)
      ensures b == file.data[Clamp(|file.data|, off)..file.pos]
      ensures root.Valid() && root.log == old(root.log) + [Piece(file.data, off, len, name, None, NoValue)]
    {
      b := file.Read(len);
      var node := new Node(b, info, name, None, NoValue);
      node := root.AddChild(file.Tell() - len, node);
    }

    /** `read(n)` of what is left of a page, added as one node only when something was read. */
    method AddRemainder(root: Node, n: int)
      requires file.Valid() && root.Valid() && pageSize.Some?
      modifies file`pos, root`children, root`log
      ensures file.Valid() && file.pos == ReadEnd(|file.data|, old(file.pos), n)
      ensures root.Valid() && root.log == old(root.log) + Remainder(file.data, old(file.pos), n)
    {
      var remainingData := file.Read(n);
      if remainingData != [] {
        var node := new Node(remainingData, "Rest unknown currently " + IntToString(PageOffset(pageSize.value, pageCounter, file.Tell())), None, None, NoValue);
        node := root.AddChild(file.Tell() - |remainingData|, node);
      } else {
        assert old(root.log) + [] == old(root.log);
      }
    }

    /** The cell-content-start field, whose description shows the value with 0 read as 65536. */
    method AddCellContentStart(root: Node, ghost off: nat, what: string) returns (node: Node)
      requires file.Valid() && file.pos == Clamp(|file.data|, off) && root.Valid()
      modifies file`pos, root`children, root`log
      ensures file.Valid() && file.pos == Clamp(|file.data|, off + 2)
      ensures fresh(node) && node.info == what + IntToString(CellContentStart(node.data))
      ensures node.data == file.data[Clamp(|file.data|, off)..file.pos]
      ensures root.Valid() && root.log == old(root.log) + [Piece(file.data, off, 2, Some("Cell content start"), None, NoValue)]
    {
      var b := file.Read(2);
      node := new Node(b, what + IntToString(CellContentStart(b)), Some("Cell content start"), None, NoValue);
      node := root.AddChild(file.Tell() - 2, node);
    }

    /** The leaf-table handler's fragmented-free-bytes field, named after its value. */
    method AddFragmentedNamed(root: Node, ghost off: nat)
      requires file.Valid() && file.pos == Clamp(|file.data|, off) && root.Valid()
      modifies file`pos, root`children, root`log
      ensures file.Valid() && file.pos == Clamp(|file.data|, off + 1)
      ensures root.Valid()
      ensures root.log == old(root.log) + [Piece(file.data, off, 1, Some(FragmentedName(file.data[Clamp(|file.data|, off)..file.pos])), None, NoValue)]
    {
      var fragmented := file.Read(1);
      var node := new Node(fragmented, "Fragmented free bytes: " + NatToString(BE(fragmented)), Some(FragmentedName(fragmented)), None, NoValue);
      node := root.AddChild(file.Tell() - 1, node);
    }

    /** The flag, first freeblock, cell count and cell-content start every handler but interior-index reads. */
    method ParseBtreeHead(root: Node, first: string, what: string)
      requires file.Valid() && root.Valid()
      modifies file`pos, root`children, root`log
      ensures file.Valid() && file.pos == Clamp(|file.data|, old(file.pos) + 7)
      ensures root.Valid() && root.log == old(root.log) + BtreeHead(file.data, old(file.pos), first)
    {
      ghost var s := file.pos;
      var flag := AddPiece(root, s, 1, Some(first), "Btree page " + NatToString(pageCounter));
      var freeblock := AddPiece(root, s + 1, 2, Some("1st freeblock start"), "Start of the first freeblock");
      var cells := AddPiece(root, s + 3, 2, Some("Num. of cells"), "Number of cells");
      var start := AddCellContentStart(root, s + 5, what);
      BtreeHeadAfter(old(root.log), file.data, s, first);
    }

    method InteriorIndexBtree(root: Node)
      requires file.Valid() && root.Valid() && pageSize.Some?
      modifies file`pos, root`children, root`log
      ensures file.Valid() && file.pos == PageEnd(file.data, pageSize.value, old(file.pos), InteriorIndex)
      ensures root.Valid() && root.log == old(root.log) + PageEntries(file.data, pageSize.value, old(file.pos), pageCounter, InteriorIndex)
    {
      var flag := AddPiece(root, file.pos, 1, Some(PageName(pageCounter, ": Interior Index")), "Btree page " + NatToString(pageCounter));
    }

    method InteriorTableBtree(root: Node)
      requires file.Valid() && root.Valid() && pageSize.Some?
      modifies file`pos, root`children, root`log
      ensures file.Valid() && file.pos == PageEnd(file.data, pageSize.value, old(file.pos), InteriorTable)
      ensures root.Valid() && root.log == old(root.log) + PageEntries(file.data, pageSize.value, old(file.pos), pageCounter, InteriorTable)
    {
      ghost var s := file.pos;
      ParseBtreeHead(root, PageName(pageCounter, ": Interior Table"), "Start of the cell content area: ");
      var fragmented := AddPiece(root, s + 7, 1, None, "Fragmented free bytes");
      var rightMost := AddPiece(root, s + 8, 4, None, "Right-most pointer");
      AddRemainder(root, pageSize.value - (1 + 2 + 2 + 2 + 1 + 4));
      InteriorTableAfter(old(root.log), file.data, pageSize.value, s, pageCounter);
    }

    method LeafIndexBtree(root: Node)
      requires file.Valid() && root.Valid() && pageSize.Some?
      modifies file`pos, root`children, root`log
      ensures file.Valid() && file.pos == PageEnd(file.data, pageSize.value, old(file.pos), LeafIndex)
      ensures root.Valid() && root.log == old(root.log) + PageEntries(file.data, pageSize.value, old(file.pos), pageCounter, LeafIndex)
    {
      ghost var s := file.pos;
      ParseBtreeHead(root, PageName(pageCounter, ": Leaf Index"), "Start of the cell content area: ");
      var fragmented := AddPiece(root, s + 7, 1, None, "Fragmented free bytes");
      AddRemainder(root, pageSize.value - (1 + 2 + 2 + 2 + 1));
      LeafAfter(old(root.log), file.data, pageSize.value, s, pageCounter, LeafIndex);
    }

    method LeafTableBtree(root: Node)
      requires file.Valid() && root.Valid() && pageSize.Some?
      modifies file`pos, root`children, root`log
      ensures file.Valid() && file.pos == PageEnd(file.data, pageSize.value, old(file.pos), LeafTable)
      ensures root.Valid() && root.log == old(root.log) + PageEntries(file.data, pageSize.value, old(file.pos), pageCounter, LeafTable)
    {
      ghost var s := file.pos;
      ParseBtreeHead(root, PageName(pageCounter, ": Leaf Table"), "Start of the first valid cell content: ");
      AddFragmentedNamed(root, s + 7);
      AddRemainder(root, pageSize.value - (1 + 2 + 2 + 2 + 1));
      LeafAfter(old(root.log), file.data, pageSize.value, s, pageCounter, LeafTable);
    }

    /** `PAGE_TYPES[byte]()` for the four known type bytes. */
    method DispatchPage(root: Node, kind: PageKind)
      requires file.Valid() && root.Valid() && pageSize.Some? && kind != Unknown
      modifies file`pos, root`children, root`log
      ensures file.Valid() && file.pos == PageEnd(file.data, pageSize.value, old(file.pos), kind)
      ensures root.Valid() && root.log == old(root.log) + PageEntries(file.data, pageSize.value, old(file.pos), pageCounter, kind)
    {
      if kind == InteriorIndex {
        InteriorIndexBtree(root);
      } else if kind == InteriorTable {
        InteriorTableBtree(root);
      } else if kind == LeafIndex {
        LeafIndexBtree(root);
      } else {
        LeafTableBtree(root);
      }
    }

    /** The header loop: one row per length, read back to back from offset 0. */
    method ParseHeader(root: Node, lens: seq<nat>, descriptions: seq<string>, names: seq<string>)
      requires file.Valid() && file.pos == 0 && root.Valid() && root.log == [] && |currentColor| == 3
      requires |lens| == |descriptions| == |names|
      modifies file`pos, root`children, root`log, this`currentColor, this`parsedFields
      ensures file.Valid() && file.pos == Clamp(|file.data|, Offset(lens, |lens|))
      ensures currentColor == ShadeAfter(old(currentColor), |lens|)
      ensures root.Valid() && root.log == Header(file.data, old(currentColor), lens, names, |lens|)
      ensures parsedFields == Stored(old(parsedFields), file.data, lens, names, |lens|)
    {
      ghost var c0 := currentColor;
      ghost var m0 := parsedFields;
      for index := 0 to |lens|
        invariant file.Valid() && root.Valid()
        invariant file.pos == Clamp(|file.data|, Offset(lens, index))
        invariant currentColor == ShadeAfter(c0, index)
        invariant root.log == Header(file.data, c0, lens, names, index)
        invariant parsedFields == Stored(m0, file.data, lens, names, index)
      {
        AddHeaderRow(root, c0, lens, descriptions, names, index);
        HeaderStep(file.data, c0, lens, names, index + 1);
        StoredStep(m0, file.data, lens, names, index + 1);
      }
    }

    /**
     * One row of the header loop: the next colour, one read, a child keyed at
     * `tell() - length` with the row's name, and `parsed_fields[name]` when the
     * name is not empty.
     */
    method AddHeaderRow(root: Node, ghost c0: seq<Byte>, lens: seq<nat>, descriptions: seq<string>, names: seq<string>, index: nat)
      requires file.Valid() && root.Valid() && |c0| == 3 && index < |lens| == |descriptions| == |names|
      requires file.pos == Clamp(|file.data|, Offset(lens, index)) && currentColor == ShadeAfter(c0, index)
      modifies file`pos, root`children, root`log, this`currentColor, this`parsedFields
      ensures file.Valid() && file.pos == Clamp(|file.data|, Offset(lens, index + 1))
      ensures currentColor == ShadeAfter(c0, index + 1)
      ensures root.Valid()
      ensures root.log == old(root.log) + [Piece(file.data, Offset(lens, index), lens[index], Some(names[index]), Some(ColorText(ShadeAfter(c0, index + 1))), HeaderValue(index, RowBytes(file.data, lens, index)))]
      ensures parsedFields == if names[index] != "" then old(parsedFields)[names[index] := RowBytes(file.data, lens, index)] else old(parsedFields)
    {
      var curCol := GetNextColor(0x05);
      var data := AddRow(root, Offset(lens, index), lens[index], names[index], curCol, descriptions[index], index);
      if names[index] != "" {
        parsedFields := parsedFields[names[index] := data];
      }
    }

    /** The read and the child of one header row, its value text for row 0 and a big-endian number otherwise. */
    method AddRow(root: Node, ghost off: nat, len: nat, name: string, color: string, info: string, index: nat) returns (b: seq<Byte>)
      requires file.Valid() && file.pos == Clamp(|file.data|, off) && root.Valid() && color != ""
      modifies file`pos, root`children, root`log
      ensures file.Valid() && file.pos == Clamp(|file.data|, off + len)
      ensures b == file.data[Clamp(|file.data|, off)..file.pos]
      ensures root.Valid() && root.log == old(root.log) + [Piece(file.data, off, len, Some(name), Some(color), HeaderValue(index, b))]
    {
      b := file.Read(len);
      var tableValue := if index == 0 then Text(AsciiIgnore(b)) else Number(BE(b));
      var node := new Node(b, info, Some(name), Some(color), tableValue);
      node := root.AddChild(file.Tell() - len, node);
    }

    /** The page-1 B-tree page header after the database header; returns the number of cells. */
    method ParsePageOneHeader(root: Node) returns (noOfCellsInPage: nat)
      requires file.Valid() && file.pos == Clamp(|file.data|, 100) && root.Valid()
      modifies file`pos, root`children, root`log
      ensures file.Valid() && file.pos == Clamp(|file.data|, 112)
      ensures noOfCellsInPage == CellCount(file.data)
      ensures root.Valid() && root.log == old(root.log) + PageOneHeader(file.data)
    {
      noOfCellsInPage := ParseCellsHeader(root);
      ParseContentHeader(root);
    }

    method ParseCellsHeader(root: Node) returns (noOfCellsInPage: nat)
      requires file.Valid() && file.pos == Clamp(|file.data|, 100) && root.Valid()
      modifies file`pos, root`children, root`log
      ensures file.Valid() && file.pos == Clamp(|file.data|, 105)
      ensures noOfCellsInPage == CellCount(file.data)
      ensures root.Valid() && root.log == old(root.log) + CellsHeader(file.data)
    {
      var flag := AddPiece(root, 100, 1, Some("DB Header Page Header"), "Page header");
      var firstFreeblock := AddPiece(root, 101, 2, Some("First freeblock"), "First free block");
      var noOfCells := AddPiece(root, 103, 2, Some("no_of_cells"), "no_of_cells");
      noOfCellsInPage := BE(noOfCells);
    }

    method ParseContentHeader(root: Node)
      requires file.Valid() && file.pos == Clamp(|file.data|, 105) && root.Valid()
      modifies file`pos, root`children, root`log
      ensures file.Valid() && file.pos == Clamp(|file.data|, 112)
      ensures root.Valid() && root.log == old(root.log) + ContentHeader(file.data)
    {
      var firstByteOfContent := AddPiece(root, 105, 2, Some("first_byte_of_content"), "First_byte_of_content");
      var fragmentedByteCount := AddPiece(root, 107, 1, Some("Fragmented Byte count"), "Fragmented byte count");
      var rightMostPointer := AddPiece(root, 108, 4, Some("Right most pointer"), "Right most pointer");
    }

    /** The page size joins the cell pointers; after sorting, the gap before the first and one payload per interval. */
    method ParseGaps(root: Node, cellpointerOffsets: seq<int>)
      requires file.Valid() && root.Valid() && pageSize.Some?
      modifies file`pos, root`children, root`log
      ensures file.Valid() && file.pos == GapsEnd(file.data, old(file.pos), Sort(cellpointerOffsets + [pageSize.value]))
      ensures root.Valid() && root.log == old(root.log) + Gaps(file.data, old(file.pos), Sort(cellpointerOffsets + [pageSize.value]))
    {
      var offsets := cellpointerOffsets + [pageSize.value];
      offsets := Sort(offsets);
      ParseIntervals(root, offsets);
    }

    /** With at least two sorted offsets: the gap up to the first, then the intervals between them. */
    method ParseIntervals(root: Node, offsets: seq<int>)
      requires file.Valid() && root.Valid()
      modifies file`pos, root`children, root`log
      ensures file.Valid() && file.pos == GapsEnd(file.data, old(file.pos), offsets)
      ensures root.Valid() && root.log == old(root.log) + Gaps(file.data, old(file.pos), offsets)
    {
      if |offsets| >= 2 {
        ghost var l0 := root.log;
        ghost var t := [Taken(file.data, file.pos, offsets[0] - file.pos, Some("Unparsed data"), Some("#FF0000"))];
        var intervals := Deltas(offsets);
        ParseUnknownData(root, offsets[0] - file.Tell(), "Possible forensic value exists here!", "Unparsed data");
        ghost var p := file.pos;
        ParsePayloads(root, intervals);
        AppendTwo(l0, t, Payloads(file.data, p, intervals));
      } else {
        assert old(root.log) + [] == old(root.log);
      }
    }

    /** `parse_payload` for each interval in turn. */
    method ParsePayloads(root: Node, intervals: seq<int>)
      requires file.Valid() && root.Valid()
      modifies file`pos, root`children, root`log
      ensures file.Valid() && file.pos == PayloadsEnd(file.data, old(file.pos), intervals)
      ensures root.Valid() && root.log == old(root.log) + Payloads(file.data, old(file.pos), intervals)
    {
      ghost var g := file.pos;
      ghost var mid := root.log;
      for i := 0 to |intervals|
        invariant file.Valid() && root.Valid()
        invariant file.pos == PayloadsEnd(file.data, g, intervals[..i])
        invariant root.log == mid + Payloads(file.data, g, intervals[..i])
      {
        PayloadsStep(file.data, g, intervals, i);
        ParsePayload(root, intervals[i]);
      }
      assert intervals[..|intervals|] == intervals;
    }

    /** Page 1: the database header, `page_size` and `autovacuum`, the B-tree page header, the cell pointers and the gaps. */
    method ParsePageOne(root: Node)
      requires file.Valid() && file.pos == 0 && root.Valid() && root.log == [] && |currentColor| == 3
      modifies file`pos, root`children, root`log, this`currentColor, this`parsedFields, this`pageSize, this`autovacuum
      ensures file.Valid() && file.pos == PageOneEnd(file.data)
      ensures root.Valid() && root.log == Header(file.data, old(currentColor), HeaderLengths, HeaderNames, 23) + PageOneBody(file.data)
      ensures currentColor == ShadeAfter(old(currentColor), 23)
      ensures parsedFields == Stored(old(parsedFields), file.data, HeaderLengths, HeaderNames, 23)
      ensures pageSize == Some(PageSize(file.data)) && autovacuum == Some(Autovacuum(file.data))
    {
      ParseDatabaseHeader(root);
      ParsePageOneRest(root);
    }

    /** The 100-byte database header, then `page_size` and `autovacuum` from the fields it stored. */
    method ParseDatabaseHeader(root: Node)
      requires file.Valid() && file.pos == 0 && root.Valid() && root.log == [] && |currentColor| == 3
      modifies file`pos, root`children, root`log, this`currentColor, this`parsedFields, this`pageSize, this`autovacuum
      ensures file.Valid() && file.pos == Clamp(|file.data|, 100)
      ensures root.Valid() && root.log == Header(file.data, old(currentColor), HeaderLengths, HeaderNames, 23)
      ensures currentColor == ShadeAfter(old(currentColor), 23)
      ensures parsedFields == Stored(old(parsedFields), file.data, HeaderLengths, HeaderNames, 23)
      ensures pageSize == Some(PageSize(file.data)) && autovacuum == Some(Autovacuum(file.data))
    {
      ReadDatabaseHeader(root);
      StoredFields(old(parsedFields), file.data, parsedFields);
      GetSizes();
    }

    /** `get_field("Page size")` and `get_field("Auto-vacuum")`, each read big-endian. */
    method GetSizes()
      requires "Page size" in parsedFields && "Auto-vacuum" in parsedFields
      modifies this`pageSize, this`autovacuum
      ensures pageSize == Some(BE(parsedFields["Page size"])) && autovacuum == Some(BE(parsedFields["Auto-vacuum"]))
    {
      var pageSizeBytes := parsedFields["Page size"];
      pageSize := Some(BE(pageSizeBytes));
      var autovacuumSizeBytes := parsedFields["Auto-vacuum"];
      autovacuum := Some(BE(autovacuumSizeBytes));
    }

    /** The header loop over the 23 rows of the database header. */
    method ReadDatabaseHeader(root: Node)
      requires file.Valid() && file.pos == 0 && root.Valid() && root.log == [] && |currentColor| == 3
      modifies file`pos, root`children, root`log, this`currentColor, this`parsedFields
      ensures file.Valid() && file.pos == Clamp(|file.data|, 100)
      ensures root.Valid() && root.log == Header(file.data, old(currentColor), HeaderLengths, HeaderNames, 23)
      ensures currentColor == ShadeAfter(old(currentColor), 23)
      ensures parsedFields == Stored(old(parsedFields), file.data, HeaderLengths, HeaderNames, 23)
    {
      HeaderRows();
      HeaderSize();
      ParseHeader(root, HeaderLengths, HeaderDescriptions, HeaderNames);
    }

    /** Page 1 after the database header. */
    method ParsePageOneRest(root: Node)
      requires file.Valid() && file.pos == Clamp(|file.data|, 100) && root.Valid() && pageSize == Some(PageSize(file.data))
      modifies file`pos, root`children, root`log
      ensures file.Valid() && file.pos == PageOneEnd(file.data)
      ensures root.Valid() && root.log == old(root.log) + PageOneBody(file.data)
    {
      ghost var data := file.data;
      ghost var l0 := root.log;
      var cells := ParsePageOneHeader(root);
      ghost var l1 := root.log;
      var cellpointerArrayBytes := file.Read(cells * 2);
      assert file.pos == ArrayEnd(data) && cellpointerArrayBytes == CellArray(data);
      var cellpointerOffsets := ParseCellPointer(root, cellpointerArrayBytes);
      ghost var l2 := root.log;
      assert l2 == l0 + PageOneHeader(data) + CellPointerEntries(CellArray(data), ArrayEnd(data) - 2);
      ghost var joined := cellpointerOffsets + [pageSize.value];
      assert joined == Pointers(CellArray(data)) + [PageSize(data)];
      OffsetsJoined(data, joined);
      ParseGaps(root, cellpointerOffsets);
      ghost var h, c, g := PageOneHeader(data), CellPointerEntries(CellArray(data), ArrayEnd(data) - 2), Gaps(data, ArrayEnd(data), Offsets(data));
      assert root.log == l0 + h + c + g;
      AppendThree(l0, h, c, g);
      PageOneBodyParts(data);
    }

    /**
     * `parse`: a fresh "SQLite file" node, the counter at 1, then the page
     * loop (page 1 first).
     */
    method Parse() returns (root: Node)
      requires file.Valid() && |currentColor| == 3 && 0 < PageSize(file.data)
      modifies file`pos, this`currentColor, this`parsedFields, this`pageSize, this`autovacuum, this`pageCounter
      ensures fresh(root) && root.data == [] && root.info == "SQLite file"
      ensures root.Valid() && root.log == Layout(file.data, old(currentColor))
      ensures file.Valid() && file.pos == Rest(file.data).end
      ensures pageCounter == FinalCounter(file.data)
      ensures pageSize == Some(PageSize(file.data)) && autovacuum == Some(Autovacuum(file.data))
    {
      WalkStart(file.data, currentColor);
      file.Seek(0);
      root := new Node([], "SQLite file", None, None, NoValue);
      pageCounter := 1;
      ParsePages(root, Layout(file.data, currentColor), FinalCounter(file.data), Rest(file.data).end);
    }

    /**
     * The page loop of `parse`: the counter checks, then (unless page 1 took
     * the `continue`) one page dispatched and counted, until the cursor plus a
     * page size passes the end of the stream.
     */
    method ParsePages(root: Node, ghost target: seq<Entry>, ghost last: nat, ghost end: nat)
      requires file.Valid() && file.pos == 0 && |currentColor| == 3 && 0 < PageSize(file.data) && 0 < |file.data|
      requires root.Valid() && root.log == [] && pageCounter == 1
      requires WalkState(file.data, PageSize(file.data), target, last, end,
        Header(file.data, currentColor, HeaderLengths, HeaderNames, 23) + PageOneBody(file.data), PageOneEnd(file.data), FirstCounter(file.data))
      modifies file`pos, root`children, root`log, this`currentColor, this`parsedFields, this`pageSize, this`autovacuum, this`pageCounter
      ensures root.Valid() && root.log == target
      ensures file.Valid() && file.pos == end
      ensures pageCounter == last
      ensures pageSize == Some(PageSize(file.data)) && autovacuum == Some(Autovacuum(file.data))
    {
      ghost var data := file.data;
      ghost var c0 := currentColor;
      ghost var ps := PageSize(data);
      while true
        invariant file.Valid() && root.Valid() && 1 <= pageCounter
        invariant pageCounter == 1 ==> file.pos == 0 && root.log == [] && currentColor == c0
        invariant pageCounter >= 2 ==> pageSize == Some(ps) && autovacuum == Some(Autovacuum(data))
        invariant pageCounter >= 2 ==> WalkState(data, ps, target, last, end, root.log, file.pos, Skipped(data, pageCounter))
        decreases if pageCounter == 1 then 1 else 0, |data| - file.pos
      {
        var done := PageTurn(root, target, last, end, c0);
        if done {
          return;
        }
      }
    }

    /**
     * One turn of the page loop: the counter checks, then, unless page 1 took
     * the `continue`, one page dispatched and counted; `done` is the loop's
     * exit test.
     */
    method PageTurn(root: Node, ghost target: seq<Entry>, ghost last: nat, ghost end: nat, ghost c0: seq<Byte>) returns (done: bool)
      requires file.Valid() && root.Valid() && 1 <= pageCounter && |c0| == 3 && 0 < PageSize(file.data) && 0 < |file.data|
      requires pageCounter == 1 ==> file.pos == 0 && root.log == [] && currentColor == c0
      requires pageCounter == 1 ==> WalkState(file.data, PageSize(file.data), target, last, end,
        Header(file.data, c0, HeaderLengths, HeaderNames, 23) + PageOneBody(file.data), PageOneEnd(file.data), FirstCounter(file.data))
      requires pageCounter >= 2 ==> pageSize == Some(PageSize(file.data)) && autovacuum == Some(Autovacuum(file.data))
      requires pageCounter >= 2 ==> WalkState(file.data, PageSize(file.data), target, last, end, root.log, file.pos, Skipped(file.data, pageCounter))
      modifies file`pos, root`children, root`log, this`currentColor, this`parsedFields, this`pageSize, this`autovacuum, this`pageCounter
      ensures file.Valid() && root.Valid() && 2 <= pageCounter
      ensures pageSize == Some(PageSize(file.data)) && autovacuum == Some(Autovacuum(file.data))
      ensures done ==> root.log == target && pageCounter == last && file.pos == end
      ensures !done ==> old(pageCounter) == 1 || old(file.pos) < file.pos
      ensures !done ==> WalkState(file.data, PageSize(file.data), target, last, end, root.log, file.pos, Skipped(file.data, pageCounter))
    {
      var skip := CountPage(root, target, last, end, c0);
      if skip {
        return false;
      }
      done := ParseCountedPage(root, target, last, end);
    }

    /**
     * The rest of one turn of the page loop: one page dispatched and counted,
     * then the test `tell() + page_size > file_size` that ends `parse`.
     */
    method ParseCountedPage(root: Node, ghost target: seq<Entry>, ghost last: nat, ghost end: nat) returns (done: bool)
      requires file.Valid() && root.Valid() && 0 < PageSize(file.data) && 0 < |file.data| && pageSize == Some(PageSize(file.data))
      requires WalkState(file.data, PageSize(file.data), target, last, end, root.log, file.pos, pageCounter)
      modifies file`pos, root`children, root`log, this`pageCounter
      ensures file.Valid() && root.Valid() && old(pageCounter) < pageCounter
      ensures done ==> root.log == target && pageCounter == last && file.pos == end
      ensures !done ==> old(file.pos) < file.pos && WalkState(file.data, PageSize(file.data), target, last, end, root.log, file.pos, pageCounter)
    {
      WalkStep(file.data, PageSize(file.data), target, last, end, root.log, file.pos, pageCounter);
      ParseNextPage(root);
      done := file.Tell() + pageSize.value > |file.data|;
    }

    /**
     * The counter checks at the top of the page loop: at 1, page 1 and the
     * `continue` when the cursor stands at the page size; at 2 with a non-zero
     * auto-vacuum field, a skip to 3.
     */
    method CountPage(root: Node, ghost target: seq<Entry>, ghost last: nat, ghost end: nat, ghost c0: seq<Byte>) returns (skip: bool)
      requires file.Valid() && root.Valid() && 1 <= pageCounter && |c0| == 3 && 0 < PageSize(file.data) && 0 < |file.data|
      requires pageCounter == 1 ==> file.pos == 0 && root.log == [] && currentColor == c0
      requires pageCounter == 1 ==> WalkState(file.data, PageSize(file.data), target, last, end,
        Header(file.data, c0, HeaderLengths, HeaderNames, 23) + PageOneBody(file.data), PageOneEnd(file.data), FirstCounter(file.data))
      requires pageCounter >= 2 ==> pageSize == Some(PageSize(file.data)) && autovacuum == Some(Autovacuum(file.data))
      requires pageCounter >= 2 ==> WalkState(file.data, PageSize(file.data), target, last, end, root.log, file.pos, Skipped(file.data, pageCounter))
      modifies file`pos, root`children, root`log, this`currentColor, this`parsedFields, this`pageSize, this`autovacuum, this`pageCounter
      ensures file.Valid() && root.Valid() && 2 <= pageCounter
      ensures skip ==> old(pageCounter) == 1 && pageCounter == 2
      ensures old(pageCounter) >= 2 ==> old(file.pos) == file.pos && pageCounter >= old(pageCounter)
      ensures pageSize == Some(PageSize(file.data)) && autovacuum == Some(Autovacuum(file.data))
      ensures WalkState(file.data, PageSize(file.data), target, last, end, root.log, file.pos, if skip then Skipped(file.data, pageCounter) else pageCounter)
    {
      skip := false;
      if pageCounter == 1 {
        skip := CountPageOne(root, target, last, end, c0);
      } else if autovacuum.value != 0 && pageCounter == 2 {
        pageCounter := pageCounter + 1;
      }
    }

    /** The first turn of the page loop: page 1, the counter to 2, and the `continue` when the cursor stands at the page size. */
    method CountPageOne(root: Node, ghost target: seq<Entry>, ghost last: nat, ghost end: nat, ghost c0: seq<Byte>) returns (skip: bool)
      requires file.Valid() && root.Valid() && pageCounter == 1 && |c0| == 3 && 0 < PageSize(file.data) && 0 < |file.data|
      requires file.pos == 0 && root.log == [] && currentColor == c0
      requires WalkState(file.data, PageSize(file.data), target, last, end,
        Header(file.data, c0, HeaderLengths, HeaderNames, 23) + PageOneBody(file.data), PageOneEnd(file.data), FirstCounter(file.data))
      modifies file`pos, root`children, root`log, this`currentColor, this`parsedFields, this`pageSize, this`autovacuum, this`pageCounter
      ensures file.Valid() && root.Valid() && pageCounter == 2
      ensures pageSize == Some(PageSize(file.data)) && autovacuum == Some(Autovacuum(file.data))
      ensures WalkState(file.data, PageSize(file.data), target, last, end, root.log, file.pos, if skip then Skipped(file.data, 2) else 2)
    {
      ParsePageOne(root);
      pageCounter := pageCounter + 1;
      skip := file.Tell() == pageSize.value;
      FirstWalk(file.data, PageSize(file.data), target, last, end, root.log);
    }

    /** The page loop after its counter checks: peek at the type byte, dispatch one page, count it. */
    method ParseNextPage(root: Node)
      requires file.Valid() && root.Valid() && pageSize.Some? && 0 < |file.data|
      modifies file`pos, root`children, root`log, this`pageCounter
      ensures file.Valid() && root.Valid()
      ensures pageCounter == old(pageCounter) + 1
      ensures file.pos == PageEnd(file.data, pageSize.value, PeekPos(file.data, old(file.pos)), Kind(PeekByte(file.data, old(file.pos))))
      ensures root.log == old(root.log) + PageEntries(file.data, pageSize.value, PeekPos(file.data, old(file.pos)), old(pageCounter), Kind(PeekByte(file.data, old(file.pos))))
    {
      ghost var p := file.pos;
      var peek := file.Read(1);
      var pageHeaderByte := BE(peek);
      PeekRead(file.data, p);
      file.Seek(file.Tell() - 1);
      var kind := Kind(pageHeaderByte);
      if kind != Unknown {
        DispatchPage(root, kind);
      } else {
        ParseUnknownData(root, pageSize.value, "Page " + NatToString(pageCounter), PageName(pageCounter, ": Unparsed/unknown data."));
      }
      pageCounter := pageCounter + 1;
    }
  }
}
