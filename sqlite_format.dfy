/**
 * The SQLite decoder's layout as functions of the stream's bytes: the 100-byte
 * database header (section 1.3 of the SQLite database file format), the page-1
 * B-tree page header and cell-pointer array (section 1.6), the gaps between the
 * sorted cell pointers, and the walk over the pages that follow.
 */
module SqliteFormat {
  import opened Bytes
  import opened Streams
  import opened Common

  /** "SQLite format 3" followed by a NUL byte. */
  const Signature: seq<Byte> := [0x53, 0x51, 0x4C, 0x69, 0x74, 0x65, 0x20, 0x66, 0x6F, 0x72, 0x6D, 0x61, 0x74, 0x20, 0x33, 0x00]

  /** What `recognizes` tests: the sixteen bytes read from offset 0 are the signature. */
  function IsSqlite(data: seq<Byte>): (b: bool)
    ensures b <==> |data| >= 16 && data[..16] == Signature
  {
    ReadAt(data, 0, 16) == Signature
  }

  // ---------------------------------------------------------------- header

  /** The database-header table, in declared order: lengths, names and (abbreviated) descriptions. */
  const HeaderLengths: seq<nat> := [16, 2, 1, 1, 1, 1, 1, 1, 4, 4, 4, 4, 4, 4, 4, 4, 4, 4, 4, 4, 20, 4, 4]

  const HeaderNames: seq<string> := [
    "Header string",
    "Page size",
    "Write version",
    "Read version",
    "Unused Space",
    "Max payload fraction",
    "Min. payload fraction",
    "Leaf payload fraction",
    "File change counter",
    "In-header DB size",
    "First freelist trunk page",
    "Total freelist pages",
    "Schema cookie",
    "Schema Format Number",
    "Default Page Cache Size",
    "Auto-vacuum",
    "DB Text Encoding",
    "User Version",
    "Incremental Vacuum Mode",
    "APP ID Length",
    "Reserved Expansion",
    "Version Valid For Number",
    "SQLite Version"
  ]

  const HeaderDescriptions: seq<string> := [
    "SQLite header string",
    "Page size",
    "Write version",
    "Read version",
    "Unused reserved space",
    "Maximum payload fraction",
    "Minimum payload fraction",
    "Leaf payload fraction",
    "File change counter",
    "In-header database size",
    "First freelist trunk page",
    "Total freelist pages",
    "Schema cookie",
    "Schema format number",
    "Default page cache size",
    "Largest root b-tree page",
    "Database text encoding",
    "User version",
    "Incremental vacuum mode",
    "Application ID",
    "Reserved for expansion",
    "Version-valid-for number",
    "SQLite version number"
  ]

  /** The three header tables have one row per field. */
  lemma HeaderRows()
    ensures |HeaderLengths| == |HeaderNames| == |HeaderDescriptions| == 23
  {
  }

  /** The header is 100 bytes; "Page size" sits at 16..18 and "Auto-vacuum" at 52..56. */
  lemma HeaderSize()
    ensures Offset(HeaderLengths, 1) == 16 && Offset(HeaderLengths, 2) == 18
    ensures Offset(HeaderLengths, 15) == 52 && Offset(HeaderLengths, 16) == 56
    ensures Offset(HeaderLengths, 23) == 100
  {
    assert Offset(HeaderLengths, 1) == 16;
    assert Offset(HeaderLengths, 2) == 18;
    assert Offset(HeaderLengths, 3) == 19;
    assert Offset(HeaderLengths, 4) == 20;
    assert Offset(HeaderLengths, 5) == 21;
    assert Offset(HeaderLengths, 6) == 22;
    assert Offset(HeaderLengths, 7) == 23;
    assert Offset(HeaderLengths, 8) == 24;
    assert Offset(HeaderLengths, 9) == 28;
    assert Offset(HeaderLengths, 10) == 32;
    assert Offset(HeaderLengths, 11) == 36;
    assert Offset(HeaderLengths, 12) == 40;
    assert Offset(HeaderLengths, 13) == 44;
    assert Offset(HeaderLengths, 14) == 48;
    assert Offset(HeaderLengths, 15) == 52;
    assert Offset(HeaderLengths, 16) == 56;
    assert Offset(HeaderLengths, 17) == 60;
    assert Offset(HeaderLengths, 18) == 64;
    assert Offset(HeaderLengths, 19) == 68;
    assert Offset(HeaderLengths, 20) == 72;
    assert Offset(HeaderLengths, 21) == 92;
    assert Offset(HeaderLengths, 22) == 96;
  }

  /** `get_next_color(size)`: every channel of the colour advances by `size`, modulo 256. */
  function NextShade(c: seq<Byte>, size: nat): (r: seq<Byte>)
    ensures |r| == |c|
  {
    seq(|c|, j requires 0 <= j < |c| => ((c[j] + size) % 256) as Byte)
  }

  /** The colour after k calls of `get_next_color(0x05)` from c. */
  function ShadeAfter(c: seq<Byte>, k: nat): (r: seq<Byte>)
    ensures |r| == |c|
  {
    if k == 0 then c else NextShade(ShadeAfter(c, k - 1), 5)
  }

  /** After k calls every channel has advanced by 5k, modulo 256. */
  lemma {:induction false} ShadeAfterClosedForm(c: seq<Byte>, k: nat, j: nat)
    requires j < |c|
    ensures ShadeAfter(c, k)[j] == (c[j] + 5 * k) % 256
  {
    if k > 0 {
      ShadeAfterClosedForm(c, k - 1, j);
      AddMod(c[j] + 5 * (k - 1), 5);
    }
  }

  lemma AddMod(x: nat, d: nat)
    ensures (x % 256 + d) % 256 == (x + d) % 256
  {
    var q := x / 256;
    assert x == 256 * q + x % 256;
    assert x + d == 256 * q + (x % 256 + d);
  }

  /** The `#rrggbb` text `get_next_color` returns. */
  function ColorText(c: seq<Byte>): (s: string)
    requires |c| == 3
    ensures |s| == 7 && s[0] == '#'
  {
    "#" + Hex2(c[0]) + Hex2(c[1]) + Hex2(c[2])
  }

  /** The colour text is read back to the three channels. */
  lemma ColorTextInverse(c: seq<Byte>)
    requires |c| == 3
    ensures ParseHex2(ColorText(c)[1..3]) == c[0]
    ensures ParseHex2(ColorText(c)[3..5]) == c[1]
    ensures ParseHex2(ColorText(c)[5..7]) == c[2]
  {
    var s := ColorText(c);
    assert s[1..3] == Hex2(c[0]) && s[3..5] == Hex2(c[1]) && s[5..7] == Hex2(c[2]);
    Hex2Inverse(c[0]);
    Hex2Inverse(c[1]);
    Hex2Inverse(c[2]);
  }

  /** The header field's `table_value`: the ASCII text of the first field, the big-endian value of the others. */
  function HeaderValue(i: nat, b: seq<Byte>): TableValue
  {
    if i == 0 then Text(AsciiIgnore(b)) else Number(BE(b))
  }

  /** The bytes the header loop reads for row i, from offset 0. */
  function RowBytes(data: seq<Byte>, lens: seq<nat>, i: nat): seq<Byte>
    requires i < |lens|
  {
    data[Clamp(|data|, Offset(lens, i))..Clamp(|data|, Offset(lens, i + 1))]
  }

  /** The children the header loop adds for its first n rows, with colours starting after c0. */
  function Header(data: seq<Byte>, c0: seq<Byte>, lens: seq<nat>, names: seq<string>, n: nat): (r: seq<Entry>)
    requires |c0| == 3 && n <= |lens| == |names|
    ensures |r| == n
  {
    if n == 0 then [] else Header(data, c0, lens, names, n - 1) + [Piece(data, Offset(lens, n - 1), lens[n - 1], Some(names[n - 1]), Some(ColorText(ShadeAfter(c0, n))), HeaderValue(n - 1, RowBytes(data, lens, n - 1)))]
  }

  /** `parsed_fields` after the header loop's first n rows: each name bound to the bytes read for it. */
  function Stored(m: map<string, seq<Byte>>, data: seq<Byte>, lens: seq<nat>, names: seq<string>, n: nat): map<string, seq<Byte>>
    requires n <= |lens| == |names|
  {
    if n == 0 then m
    else
      var before := Stored(m, data, lens, names, n - 1);
      if names[n - 1] != "" then before[names[n - 1] := RowBytes(data, lens, n - 1)] else before
  }

  /** One more header row appends its piece. */
  lemma HeaderStep(data: seq<Byte>, c0: seq<Byte>, lens: seq<nat>, names: seq<string>, n: nat)
    requires |c0| == 3 && 0 < n <= |lens| == |names|
    ensures Header(data, c0, lens, names, n) == Header(data, c0, lens, names, n - 1)
      + [Piece(data, Offset(lens, n - 1), lens[n - 1], Some(names[n - 1]), Some(ColorText(ShadeAfter(c0, n))), HeaderValue(n - 1, RowBytes(data, lens, n - 1)))]
  {
  }

  /** One more header row binds its name when the name is not empty. */
  lemma StoredStep(m: map<string, seq<Byte>>, data: seq<Byte>, lens: seq<nat>, names: seq<string>, n: nat)
    requires 0 < n <= |lens| == |names|
    ensures Stored(m, data, lens, names, n) == if names[n - 1] != "" then Stored(m, data, lens, names, n - 1)[names[n - 1] := RowBytes(data, lens, n - 1)] else Stored(m, data, lens, names, n - 1)
  {
  }

  /**
   * With the header's bytes present, row i is keyed at its cumulative offset,
   * holds exactly its own bytes, and carries the (i + 1)-th colour of the loop.
   */
  lemma {:induction false} HeaderAligned(data: seq<Byte>, c0: seq<Byte>, lens: seq<nat>, names: seq<string>, n: nat, i: nat)
    requires |c0| == 3 && n <= |lens| == |names| && Offset(lens, n) <= |data| && i < n
    ensures Offset(lens, i + 1) <= |data|
    ensures Header(data, c0, lens, names, n)[i].key == Offset(lens, i)
    ensures Header(data, c0, lens, names, n)[i].data == data[Offset(lens, i)..Offset(lens, i + 1)]
    ensures Header(data, c0, lens, names, n)[i].name == Some(names[i])
    ensures Header(data, c0, lens, names, n)[i].color == Some(ColorText(ShadeAfter(c0, i + 1)))
  {
    if i < n - 1 {
      HeaderAligned(data, c0, lens, names, n - 1, i);
    }
  }

  /** The header rows' bytes, concatenated in order, are the stream's first bytes up to the rows' end (or all of a shorter stream). */
  lemma {:induction false} HeaderTiles(data: seq<Byte>, c0: seq<Byte>, lens: seq<nat>, names: seq<string>, n: nat)
    requires |c0| == 3 && n <= |lens| == |names|
    ensures Concat(Header(data, c0, lens, names, n)) == data[..Clamp(|data|, Offset(lens, n))]
  {
    if n > 0 {
      HeaderTiles(data, c0, lens, names, n - 1);
      HeaderLast(data, c0, lens, names, n);
      PrefixJoin(data, Offset(lens, n - 1), Offset(lens, n));
    }
  }

  /** The last of n header rows, and the rows before it. */
  lemma HeaderLast(data: seq<Byte>, c0: seq<Byte>, lens: seq<nat>, names: seq<string>, n: nat)
    requires |c0| == 3 && 0 < n <= |lens| == |names|
    ensures Concat(Header(data, c0, lens, names, n)) == Concat(Header(data, c0, lens, names, n - 1)) + data[Clamp(|data|, Offset(lens, n - 1))..Clamp(|data|, Offset(lens, n))]
  {
    var h := Header(data, c0, lens, names, n);
    assert h[..n - 1] == Header(data, c0, lens, names, n - 1);
  }

  lemma PrefixJoin(data: seq<Byte>, a: nat, b: nat)
    requires a <= b
    ensures data[..Clamp(|data|, a)] + data[Clamp(|data|, a)..Clamp(|data|, b)] == data[..Clamp(|data|, b)]
  {
  }

  /** The 23 database-header children hold the stream's first 100 bytes (all of a shorter stream). */
  lemma HeaderCovers(data: seq<Byte>, c0: seq<Byte>)
    requires |c0| == 3
    ensures Concat(Header(data, c0, HeaderLengths, HeaderNames, 23)) == data[..Clamp(|data|, 100)]
  {
    HeaderSize();
    HeaderTiles(data, c0, HeaderLengths, HeaderNames, 23);
  }

  /** A (non-empty) name bound by row k and by no later row keeps row k's bytes. */
  lemma {:induction false} StoredLast(m: map<string, seq<Byte>>, data: seq<Byte>, lens: seq<nat>, names: seq<string>, n: nat, k: nat)
    requires k < n <= |lens| == |names| && names[k] != ""
    requires forall j :: k < j < n ==> names[j] != names[k]
    ensures names[k] in Stored(m, data, lens, names, n)
    ensures Stored(m, data, lens, names, n)[names[k]] == RowBytes(data, lens, k)
  {
    if k < n - 1 {
      StoredLast(m, data, lens, names, n - 1, k);
      assert names[n - 1] != names[k];
    }
  }

  /** The "Page size" field: big-endian, with no special case for the value 1. */
  function PageSize(data: seq<Byte>): nat
  {
    BE(data[Clamp(|data|, 16)..Clamp(|data|, 18)])
  }

  /** The "Auto-vacuum" field (the largest root b-tree page), big-endian. */
  function Autovacuum(data: seq<Byte>): nat
  {
    BE(data[Clamp(|data|, 52)..Clamp(|data|, 56)])
  }

  /** `get_field("Page size")` and `get_field("Auto-vacuum")` after the header loop: the bytes at 16..18 and 52..56. */
  lemma StoredFields(m: map<string, seq<Byte>>, data: seq<Byte>, fields: map<string, seq<Byte>>)
    requires fields == Stored(m, data, HeaderLengths, HeaderNames, 23)
    ensures "Page size" in fields && BE(fields["Page size"]) == PageSize(data)
    ensures "Auto-vacuum" in fields && BE(fields["Auto-vacuum"]) == Autovacuum(data)
  {
    HeaderSize();
    StoredLast(m, data, HeaderLengths, HeaderNames, 23, 1);
    StoredLast(m, data, HeaderLengths, HeaderNames, 23, 15);
  }

  /** A stream whose page size is not 0 holds at least 17 bytes. */
  lemma PageSizeNeedsBytes(data: seq<Byte>)
    requires PageSize(data) > 0
    ensures |data| > 16
  {
  }

  // ------------------------------------------------- page 1 after the header

  /** The page-1 B-tree page header: six fields read from offset 100. */
  function PageOneHeader(data: seq<Byte>): seq<Entry>
  {
    CellsHeader(data) + ContentHeader(data)
  }

  /** The page type byte, the first freeblock and the number of cells. */
  function CellsHeader(data: seq<Byte>): seq<Entry>
  {
    [Piece(data, 100, 1, Some("DB Header Page Header"), None, NoValue),
     Piece(data, 101, 2, Some("First freeblock"), None, NoValue),
     Piece(data, 103, 2, Some("no_of_cells"), None, NoValue)]
  }

  /** The start of the cell content area, the fragmented byte count and the right-most pointer. */
  function ContentHeader(data: seq<Byte>): seq<Entry>
  {
    [Piece(data, 105, 2, Some("first_byte_of_content"), None, NoValue),
     Piece(data, 107, 1, Some("Fragmented Byte count"), None, NoValue),
     Piece(data, 108, 4, Some("Right most pointer"), None, NoValue)]
  }

  /** The number of cells on page 1, from the page header. */
  function CellCount(data: seq<Byte>): nat
  {
    BE(data[Clamp(|data|, 103)..Clamp(|data|, 105)])
  }

  /** Where the cell-pointer array ends: `read(2 * cells)` from offset 112. */
  function ArrayEnd(data: seq<Byte>): nat
  {
    ReadEnd(|data|, Clamp(|data|, 112), 2 * CellCount(data))
  }

  /** The bytes of the cell-pointer array. */
  function CellArray(data: seq<Byte>): seq<Byte>
  {
    data[Clamp(|data|, 112)..ArrayEnd(data)]
  }

  /** The slice `a[2k:2k+2]`; the last one is a single byte when |a| is odd. */
  function Chunk(a: seq<Byte>, k: nat): (r: seq<Byte>)
    requires 2 * k < |a|
    ensures 1 <= |r| <= 2
  {
    if 2 * k + 2 <= |a| then a[2 * k..2 * k + 2] else a[2 * k..]
  }

  /** How many slices `range(0, len(a), 2)` visits. */
  function ChunkCount(a: seq<Byte>): nat
  {
    (|a| + 1) / 2
  }

  /** The values `parse_cell_pointer` returns: each slice read as a big-endian integer. */
  function Pointers(a: seq<Byte>): (r: seq<int>)
    ensures |r| == ChunkCount(a)
  {
    seq(ChunkCount(a), k requires 0 <= k < ChunkCount(a) => BE(Chunk(a, k)))
  }

  /** On 2n bytes: n values, the k-th being bytes 2k and 2k+1 read big-endian, in input order. */
  lemma PointersOfPairs(a: seq<Byte>, n: nat)
    requires |a| == 2 * n
    ensures |Pointers(a)| == n
    ensures forall k :: 0 <= k < n ==> Pointers(a)[k] == 256 * (a[2 * k] as int) + a[2 * k + 1] < 65536
  {
    forall k | 0 <= k < n
      ensures Pointers(a)[k] == 256 * (a[2 * k] as int) + a[2 * k + 1]
    {
      var c := Chunk(a, k);
      assert c == [a[2 * k], a[2 * k + 1]];
      assert c[..1] == [a[2 * k]] && c[..1][..0] == [];
      assert BE(c[..1]) == a[2 * k];
      assert BE(c) == BE(c[..1]) * 256 + c[1];
    }
  }

  function CellPointerName(v: int): string
  {
    "cellpointer: " + IntToString(v)
  }

  /** The children `parse_cell_pointer` adds: one per slice, all keyed at the same `tell() - 2`. */
  function CellPointerEntries(a: seq<Byte>, key: int): (r: seq<Entry>)
    ensures |r| == ChunkCount(a)
  {
    seq(ChunkCount(a), k requires 0 <= k < ChunkCount(a) => Entry(key, Chunk(a, k), Some(CellPointerName(BE(Chunk(a, k)))), None, NoValue))
  }

  /** The k-th cell pointer child and value come from the k-th slice. */
  lemma CellPointerAt(a: seq<Byte>, key: int, k: nat)
    requires k < ChunkCount(a)
    ensures CellPointerEntries(a, key)[k] == Entry(key, Chunk(a, k), Some(CellPointerName(BE(Chunk(a, k)))), None, NoValue)
    ensures Pointers(a)[k] == BE(Chunk(a, k))
  {
  }

  // ---------------------------------------------------------- sort and gaps

  predicate Sorted(s: seq<int>)
  {
    forall i, j :: 0 <= i < j < |s| ==> s[i] <= s[j]
  }

  /** x inserted in front of the first element not below it. */
  function Insert(x: int, s: seq<int>): (r: seq<int>)
    ensures |r| == |s| + 1
  {
    if s == [] || x <= s[0] then [x] + s
    else [s[0]] + Insert(x, s[1..])
  }

  /** Inserting adds exactly x. */
  lemma {:induction false} InsertPermutes(x: int, s: seq<int>)
    ensures multiset(Insert(x, s)) == multiset(s) + multiset{x}
  {
    if s == [] || x <= s[0] {
      assert Insert(x, s) == [x] + s;
    } else {
      assert s == [s[0]] + s[1..];
      InsertPermutes(x, s[1..]);
      assert Insert(x, s) == [s[0]] + Insert(x, s[1..]);
    }
  }

  /** Inserting into a sorted sequence keeps it sorted. */
  lemma {:induction false} InsertSorted(x: int, s: seq<int>)
    requires Sorted(s)
    ensures Sorted(Insert(x, s))
  {
    if s == [] || x <= s[0] {
      assert Insert(x, s) == [x] + s;
    } else {
      var u := s[1..];
      InsertSorted(x, u);
      InsertPermutes(x, u);
      var t := Insert(x, u);
      forall i | 0 <= i < |t|
        ensures s[0] <= t[i]
      {
        assert t[i] in multiset(t);
        if t[i] != x {
          assert t[i] in multiset(u);
          var j :| 0 <= j < |u| && u[j] == t[i];
          assert s[j + 1] == t[i];
        }
      }
      assert Insert(x, s) == [s[0]] + t;
    }
  }

  /** `list.sort()`: the ascending rearrangement of s. */
  function Sort(s: seq<int>): (r: seq<int>)
    ensures |r| == |s|
  {
    if s == [] then [] else Insert(s[|s| - 1], Sort(s[..|s| - 1]))
  }

  /** The result of `Sort` is in ascending order and a permutation of its input. */
  lemma {:induction false} SortSorted(s: seq<int>)
    ensures Sorted(Sort(s)) && multiset(Sort(s)) == multiset(s)
  {
    if s != [] {
      SortSorted(s[..|s| - 1]);
      InsertSorted(s[|s| - 1], Sort(s[..|s| - 1]));
      InsertPermutes(s[|s| - 1], Sort(s[..|s| - 1]));
      assert s == s[..|s| - 1] + [s[|s| - 1]];
    }
  }

  /** The first element of a sorted sequence is its minimum and the last its maximum. */
  lemma SortedEnds(s: seq<int>, x: int)
    requires Sorted(s) && x in multiset(s)
    ensures s[0] <= x <= s[|s| - 1]
  {
    assert x in s;
  }

  /** The intervals between consecutive offsets. */
  function Deltas(s: seq<int>): (d: seq<int>)
    requires |s| >= 1
    ensures |d| == |s| - 1
  {
    seq(|s| - 1, i requires 0 <= i < |s| - 1 => s[i + 1] - s[i])
  }

  function Sum(d: seq<int>): int
  {
    if d == [] then 0 else Sum(d[..|d| - 1]) + d[|d| - 1]
  }

  /** The intervals add up to the distance from the first offset to the last. */
  lemma {:induction false} DeltasSum(s: seq<int>)
    requires |s| >= 1
    ensures Sum(Deltas(s)) == s[|s| - 1] - s[0]
  {
    if |s| > 1 {
      var t := s[..|s| - 1];
      DeltasSum(t);
      assert Deltas(s)[..|s| - 2] == Deltas(t);
    }
  }

  /** The intervals of a sorted sequence are never negative. */
  lemma DeltasOfSorted(s: seq<int>)
    requires |s| >= 1 && Sorted(s)
    ensures forall i :: 0 <= i < |s| - 1 ==> Deltas(s)[i] >= 0
  {
  }

  /** Where the cursor stands after `parse_payload` for each interval in turn from `pos`. */
  function PayloadsEnd(data: seq<Byte>, pos: nat, ds: seq<int>): (e: nat)
    requires pos <= |data|
    ensures pos <= e <= |data|
  {
    if ds == [] then pos else ReadEnd(|data|, PayloadsEnd(data, pos, ds[..|ds| - 1]), ds[|ds| - 1])
  }

  /** The "Payload" children `parse_payload` adds, one per interval. */
  function Payloads(data: seq<Byte>, pos: nat, ds: seq<int>): (r: seq<Entry>)
    requires pos <= |data|
    ensures |r| == |ds|
  {
    if ds == [] then []
    else Payloads(data, pos, ds[..|ds| - 1]) + [Taken(data, PayloadsEnd(data, pos, ds[..|ds| - 1]), ds[|ds| - 1], Some("Payload"), None)]
  }

  /** One more interval: one more payload, read from where the others ended. */
  lemma PayloadsStep(data: seq<Byte>, pos: nat, ds: seq<int>, i: nat)
    requires pos <= |data| && i < |ds|
    ensures PayloadsEnd(data, pos, ds[..i + 1]) == ReadEnd(|data|, PayloadsEnd(data, pos, ds[..i]), ds[i])
    ensures Payloads(data, pos, ds[..i + 1]) == Payloads(data, pos, ds[..i]) + [Taken(data, PayloadsEnd(data, pos, ds[..i]), ds[i], Some("Payload"), None)]
  {
    assert ds[..i + 1][..i] == ds[..i];
  }

  /** Non-negative intervals that fit in the stream move the cursor by exactly their sum. */
  lemma {:induction false} PayloadsAdvance(data: seq<Byte>, pos: nat, ds: seq<int>)
    requires pos <= |data|
    requires forall i :: 0 <= i < |ds| ==> ds[i] >= 0
    requires pos + Sum(ds) <= |data|
    ensures PayloadsEnd(data, pos, ds) == pos + Sum(ds)
  {
    if ds != [] {
      var t := ds[..|ds| - 1];
      PayloadsAdvance(data, pos, t);
    }
  }

  /** The offsets the gap accounting walks: the cell pointers and the page size, sorted. */
  function Offsets(data: seq<Byte>): (r: seq<int>)
    ensures |r| == ChunkCount(CellArray(data)) + 1
  {
    Sort(Pointers(CellArray(data)) + [PageSize(data)])
  }

  /**
   * The gap accounting from cursor `pos`: with at least two offsets, one red
   * "Unparsed data" child of `offsets[0] - pos` bytes, then one payload per interval.
   */
  function Gaps(data: seq<Byte>, pos: nat, offs: seq<int>): seq<Entry>
    requires pos <= |data|
  {
    if |offs| >= 2 then
      [Taken(data, pos, offs[0] - pos, Some("Unparsed data"), Some("#FF0000"))]
      + Payloads(data, ReadEnd(|data|, pos, offs[0] - pos), Deltas(offs))
    else []
  }

  function GapsEnd(data: seq<Byte>, pos: nat, offs: seq<int>): (e: nat)
    requires pos <= |data|
    ensures pos <= e <= |data|
  {
    if |offs| >= 2 then PayloadsEnd(data, ReadEnd(|data|, pos, offs[0] - pos), Deltas(offs)) else pos
  }

  /**
   * When the cell pointers all lie between the end of the array and the page
   * size, and the page is all there, the gap and the payloads end exactly at
   * the page size.
   */
  lemma GapsEndAtPageSize(data: seq<Byte>)
    requires ChunkCount(CellArray(data)) >= 1 && PageSize(data) <= |data|
    requires forall k :: 0 <= k < ChunkCount(CellArray(data)) ==> ArrayEnd(data) <= Pointers(CellArray(data))[k] <= PageSize(data)
    ensures GapsEnd(data, ArrayEnd(data), Offsets(data)) == PageSize(data)
  {
    var ps := PageSize(data);
    var ptrs := Pointers(CellArray(data));
    var offs := Offsets(data);
    var q1 := ArrayEnd(data);
    SortSorted(ptrs + [ps]);
    assert ps in multiset(ptrs + [ps]);
    SortedEnds(offs, ps);
    assert offs[0] in multiset(ptrs + [ps]);
    assert ptrs[0] in multiset(ptrs + [ps]);
    SortedEnds(offs, ptrs[0]);
    assert offs[|offs| - 1] in multiset(ptrs + [ps]);
    assert q1 <= offs[0];
    assert offs[|offs| - 1] == ps;
    DeltasSum(offs);
    DeltasOfSorted(offs);
    PayloadsAdvance(data, offs[0], Deltas(offs));
  }

  /** No gap and no payload children exactly when no cell pointer was read (fewer than two offsets). */
  lemma NoCellsNoGaps(data: seq<Byte>)
    ensures Gaps(data, ArrayEnd(data), Offsets(data)) == [] <==> ChunkCount(CellArray(data)) == 0
    ensures CellCount(data) == 0 ==> Gaps(data, ArrayEnd(data), Offsets(data)) == []
  {
  }

  /** Everything page 1 adds after the 100-byte header. */
  function PageOneBody(data: seq<Byte>): seq<Entry>
  {
    PageOneHeader(data) + CellPointerEntries(CellArray(data), ArrayEnd(data) - 2) + Gaps(data, ArrayEnd(data), Offsets(data))
  }

  lemma OffsetsJoined(data: seq<Byte>, joined: seq<int>)
    requires joined == Pointers(CellArray(data)) + [PageSize(data)]
    ensures Sort(joined) == Offsets(data)
  {
  }

  lemma PageOneBodyParts(data: seq<Byte>)
    ensures PageOneBody(data) == PageOneHeader(data) + CellPointerEntries(CellArray(data), ArrayEnd(data) - 2) + Gaps(data, ArrayEnd(data), Offsets(data))
  {
  }

  /** Where the cursor stands once page 1 is parsed. */
  function PageOneEnd(data: seq<Byte>): nat
  {
    GapsEnd(data, ArrayEnd(data), Offsets(data))
  }

  // --------------------------------------------------------------- the walk

  /** The handler the page loop dispatches to for a type byte (`PAGE_TYPES` in `parse`). */
  datatype PageKind = InteriorIndex | InteriorTable | LeafIndex | LeafTable | Unknown

  function Kind(b: int): (k: PageKind)
    ensures k == InteriorIndex <==> b == 0x02
    ensures k == InteriorTable <==> b == 0x05
    ensures k == LeafIndex <==> b == 0x0A
    ensures k == LeafTable <==> b == 0x0D
  {
    if b == 0x02 then InteriorIndex
    else if b == 0x05 then InteriorTable
    else if b == 0x0A then LeafIndex
    else if b == 0x0D then LeafTable
    else Unknown
  }

  /** `determine_page_type`. */
  function PageTypeName(b: int): (s: string)
  {
    if b == 0x02 then "Interior Index BTree"
    else if b == 0x05 then "Interior Table BTree"
    else if b == 0x0A then "Leaf Index BTree"
    else if b == 0x0D then "Leaf Table BTree"
    else "unknown"
  }

  /** The four named page types are exactly the four bytes the loop has a handler for. */
  lemma PageTypeNameAgrees(b: int)
    ensures PageTypeName(b) == "unknown" <==> Kind(b) == Unknown
  {
  }

  /** `get_page_offset(page_num, current_offset)`. */
  function PageOffset(pageSize: int, pageNum: int, current: int): (r: int)
  {
    var pageStart := (pageNum - 1) * pageSize;
    if pageNum == 1 then current - pageStart else (current - pageStart) - pageNum + 1 - pageSize
  }

  /** Page 1 starts at 0; from page 2 on the result is the offset within the page less the page size and n - 1. */
  lemma PageOffsetValues(pageSize: int, pageNum: int, current: int)
    ensures pageNum == 1 ==> PageOffset(pageSize, pageNum, current) == current
    ensures pageNum != 1 ==> PageOffset(pageSize, pageNum, current) == current - pageNum * pageSize - pageNum + 1
  {
    assert (pageNum - 1) * pageSize == pageNum * pageSize - pageSize;
  }

  /** The cell-content start as the handlers describe it: read signed, with 0 standing for 65536. */
  function CellContentStart(b: seq<Byte>): (v: int)
    ensures v != 0
  {
    var x := BESigned(b);
    if x == 0 then 65536 else x
  }

  /** On two bytes: 65536 exactly for 00 00; otherwise the signed 16-bit value, negative from 0x8000 on. */
  lemma CellContentStartRange(b: seq<Byte>)
    requires |b| == 2
    ensures CellContentStart(b) == 65536 <==> b == [0, 0]
    ensures b != [0, 0] ==> -32768 <= CellContentStart(b) < 32768
    ensures b[0] >= 0x80 <==> CellContentStart(b) < 0
  {
    assert b[..1][..0] == [] && b[..1] == [b[0]];
    assert BE(b[..1]) == b[0];
    assert BE(b) == 256 * (b[0] as int) + b[1];
    assert Pow256(2) == 65536;
    if BE(b) == 0 {
      assert b == [0, 0];
    }
  }

  function PageName(counter: nat, what: string): string
  {
    "Page " + NatToString(counter) + what
  }

  /** `if remaining_data:` the rest of the page as one child keyed at the cursor before the read. */
  function Remainder(data: seq<Byte>, pos: nat, n: int): seq<Entry>
    requires pos <= |data|
  {
    var end := ReadEnd(|data|, pos, n);
    if pos < end then [Plain(pos, data[pos..end])] else []
  }

  /** The four fields every B-tree handler but the interior-index one starts with. */
  function BtreeHead(data: seq<Byte>, s: nat, first: string): seq<Entry>
  {
    [Piece(data, s, 1, Some(first), None, NoValue),
     Piece(data, s + 1, 2, Some("1st freeblock start"), None, NoValue),
     Piece(data, s + 3, 2, Some("Num. of cells"), None, NoValue),
     Piece(data, s + 5, 2, Some("Cell content start"), None, NoValue)]
  }

  /** The four B-tree head fields as the parser appends them, one after another. */
  lemma BtreeHeadAfter(l: seq<Entry>, data: seq<Byte>, s: nat, first: string)
    ensures l + [Piece(data, s, 1, Some(first), None, NoValue)] + [Piece(data, s + 1, 2, Some("1st freeblock start"), None, NoValue)]
      + [Piece(data, s + 3, 2, Some("Num. of cells"), None, NoValue)] + [Piece(data, s + 5, 2, Some("Cell content start"), None, NoValue)]
      == l + BtreeHead(data, s, first)
  {
  }

  function FragmentedName(b: seq<Byte>): string
  {
    "Fragmented free bytes " + NatToString(BE(b))
  }

  /** The children a handler adds for page `counter` starting at `s`. */
  function PageEntries(data: seq<Byte>, ps: nat, s: nat, counter: nat, k: PageKind): seq<Entry>
    requires s <= |data|
  {
    match k
    case InteriorIndex => [Piece(data, s, 1, Some(PageName(counter, ": Interior Index")), None, NoValue)]
    case InteriorTable =>
      BtreeHead(data, s, PageName(counter, ": Interior Table"))
      + [Piece(data, s + 7, 1, None, None, NoValue), Piece(data, s + 8, 4, None, None, NoValue)]
      + Remainder(data, Clamp(|data|, s + 12), ps - 12)
    case LeafIndex =>
      BtreeHead(data, s, PageName(counter, ": Leaf Index"))
      + [Piece(data, s + 7, 1, None, None, NoValue)]
      + Remainder(data, Clamp(|data|, s + 8), ps - 8)
    case LeafTable =>
      BtreeHead(data, s, PageName(counter, ": Leaf Table"))
      + [Piece(data, s + 7, 1, Some(FragmentedName(data[Clamp(|data|, s + 7)..Clamp(|data|, s + 8)])), None, NoValue)]
      + Remainder(data, Clamp(|data|, s + 8), ps - 8)
    case Unknown => [Taken(data, s, ps, Some(PageName(counter, ": Unparsed/unknown data.")), Some("#FF0000"))]
  }

  /** The interior-table records as the handler appends them: the head, two pieces, the remainder. */
  lemma InteriorTableAfter(l: seq<Entry>, data: seq<Byte>, ps: nat, s: nat, counter: nat)
    requires s <= |data|
    ensures l + BtreeHead(data, s, PageName(counter, ": Interior Table")) + [Piece(data, s + 7, 1, None, None, NoValue)]
      + [Piece(data, s + 8, 4, None, None, NoValue)] + Remainder(data, Clamp(|data|, s + 12), ps - 12)
      == l + PageEntries(data, ps, s, counter, InteriorTable)
  {
  }

  /** The leaf records as the handlers append them: the head, the fragmented-bytes piece, the remainder. */
  lemma LeafAfter(l: seq<Entry>, data: seq<Byte>, ps: nat, s: nat, counter: nat, k: PageKind)
    requires s <= |data| && (k == LeafIndex || k == LeafTable)
    ensures var name := if k == LeafIndex then None else Some(FragmentedName(data[Clamp(|data|, s + 7)..Clamp(|data|, s + 8)]));
      l + BtreeHead(data, s, PageName(counter, if k == LeafIndex then ": Leaf Index" else ": Leaf Table"))
      + [Piece(data, s + 7, 1, name, None, NoValue)] + Remainder(data, Clamp(|data|, s + 8), ps - 8)
      == l + PageEntries(data, ps, s, counter, k)
  {
  }

  /** Where a handler leaves the cursor. */
  function PageEnd(data: seq<Byte>, ps: nat, s: nat, k: PageKind): (e: nat)
    requires s <= |data|
    ensures s <= e <= |data|
  {
    match k
    case InteriorIndex => Clamp(|data|, s + 1)
    case InteriorTable => ReadEnd(|data|, Clamp(|data|, s + 12), ps - 12)
    case LeafIndex => ReadEnd(|data|, Clamp(|data|, s + 8), ps - 8)
    case LeafTable => ReadEnd(|data|, Clamp(|data|, s + 8), ps - 8)
    case Unknown => ReadEnd(|data|, s, ps)
  }

  /**
   * Bytes consumed by a handler on a page that is all there: the interior-index
   * handler takes 1 byte; the others take the page size, except that a page size
   * below their fixed header makes the last read negative, which reads to the end.
   */
  lemma PageConsumption(data: seq<Byte>, ps: nat, s: nat, k: PageKind)
    requires 0 < ps && s + ps <= |data|
    ensures k == InteriorIndex ==> PageEnd(data, ps, s, k) == s + 1
    ensures k == InteriorTable ==> PageEnd(data, ps, s, k) == if ps >= 12 then s + ps else |data|
    ensures k in {LeafIndex, LeafTable} ==> PageEnd(data, ps, s, k) == if ps >= 8 then s + ps else |data|
    ensures k == Unknown ==> PageEnd(data, ps, s, k) == s + ps
  {
  }

  /** Every handler reads at least one byte when started before the end of the stream. */
  lemma PageAdvances(data: seq<Byte>, ps: nat, s: nat, k: PageKind)
    requires 0 < ps && s < |data|
    ensures s < PageEnd(data, ps, s, k)
  {
  }

  /** What the page loop produced from some point on: its children, how many pages it dispatched, and where it stopped. */
  datatype Walk = Walk(entries: seq<Entry>, pages: nat, end: nat)

  /** Where the peek leaves the cursor: one byte back when it read nothing at the end of the stream. */
  function PeekPos(data: seq<Byte>, pos: nat): nat
    requires 0 < |data| && pos <= |data|
  {
    if pos < |data| then pos else |data| - 1
  }

  /** The type byte the peek sees: `int.from_bytes(b'')` is 0 at the end of the stream. */
  function PeekByte(data: seq<Byte>, pos: nat): Byte
    requires pos <= |data|
  {
    if pos < |data| then data[pos] else 0
  }

  /**
   * The page loop from a peek at `pos` with the counter at `counter`: dispatch
   * one page, then stop when the cursor plus a page size passes the end.
   */
  function PageWalk(data: seq<Byte>, ps: nat, pos: nat, counter: nat): (w: Walk)
    requires 0 < ps && 0 < |data| && pos <= |data|
    ensures 1 <= w.pages && w.end <= |data| < w.end + ps
    decreases |data| - pos
  {
    var s := PeekPos(data, pos);
    var k := Kind(PeekByte(data, pos));
    var e := PageEnd(data, ps, s, k);
    PageAdvances(data, ps, s, k);
    if e + ps > |data| then Walk(PageEntries(data, ps, s, counter, k), 1, e)
    else
      var rest := PageWalk(data, ps, e, counter + 1);
      Walk(PageEntries(data, ps, s, counter, k) + rest.entries, rest.pages + 1, rest.end)
  }

  /**
   * The counter at the first dispatched page: page 1 ending exactly at the page
   * size takes the `continue`, and then a non-zero auto-vacuum field skips 2.
   */
  function FirstCounter(data: seq<Byte>): nat
  {
    if PageOneEnd(data) == PageSize(data) && Autovacuum(data) != 0 then 3 else 2
  }

  /** The walk after page 1. */
  function Rest(data: seq<Byte>): Walk
    requires 0 < PageSize(data)
  {
    PageWalk(data, PageSize(data), PageOneEnd(data), FirstCounter(data))
  }

  /** The counter the next dispatched page gets: 2 becomes 3 when the auto-vacuum field is not 0. */
  function Skipped(data: seq<Byte>, counter: nat): nat
  {
    if counter == 2 && Autovacuum(data) != 0 then 3 else counter
  }

  /** The value of `page_counter` when `parse` returns. */
  function FinalCounter(data: seq<Byte>): nat
    requires 0 < PageSize(data)
  {
    FirstCounter(data) + Rest(data).pages
  }

  /** The children of the "SQLite file" node when the colour starts at c0. */
  function Layout(data: seq<Byte>, c0: seq<Byte>): seq<Entry>
    requires 0 < PageSize(data) && |c0| == 3
  {
    Header(data, c0, HeaderLengths, HeaderNames, 23) + PageOneBody(data) + Rest(data).entries
  }

  /**
   * The peek at the end of the stream steps back one byte and sees type 0, so
   * the last byte is read again as an unknown page of its own.
   */
  lemma PeekAtEnd(data: seq<Byte>, ps: nat, counter: nat)
    requires 0 < ps && 0 < |data|
    ensures PageWalk(data, ps, |data|, counter)
      == Walk([Entry(|data| - ps, data[|data| - 1..], Some(PageName(counter, ": Unparsed/unknown data.")), Some("#FF0000"), NoValue)], 1, |data|)
  {
    var s := |data| - 1;
    assert PeekPos(data, |data|) == s && Kind(PeekByte(data, |data|)) == Unknown;
    assert PageEnd(data, ps, s, Unknown) == |data|;
    assert data[s..|data|] == data[s..];
  }

  /** An unknown type byte gives exactly one red node of a page size, named after the counter. */
  lemma UnknownPage(data: seq<Byte>, ps: nat, pos: nat, counter: nat)
    requires 0 < ps && pos + ps <= |data| && Kind(data[pos]) == Unknown
    ensures PageWalk(data, ps, pos, counter).entries[0]
      == Entry(pos, data[pos..pos + ps], Some(PageName(counter, ": Unparsed/unknown data.")), Some("#FF0000"), NoValue)
  {
  }

  /** An interior-index type byte consumes a single byte: the next page is peeked one byte later. */
  lemma InteriorIndexOneByte(data: seq<Byte>, ps: nat, pos: nat, counter: nat)
    requires 0 < ps && pos + 1 + ps <= |data| && data[pos] == 0x02
    ensures PageWalk(data, ps, pos, counter)
      == var rest := PageWalk(data, ps, pos + 1, counter + 1);
         Walk([Entry(pos, [data[pos]], Some(PageName(counter, ": Interior Index")), None, NoValue)] + rest.entries, rest.pages + 1, rest.end)
  {
    assert PeekPos(data, pos) == pos && Kind(PeekByte(data, pos)) == InteriorIndex;
    assert PageEnd(data, ps, pos, InteriorIndex) == pos + 1;
    assert data[pos..pos + 1] == [data[pos]];
  }

  /** `read(1)` then `seek(tell() - 1)`: the byte seen and where the cursor is left. */
  lemma PeekRead(data: seq<Byte>, pos: nat)
    requires 0 < |data| && pos <= |data|
    ensures BE(data[pos..ReadEnd(|data|, pos, 1)]) == PeekByte(data, pos)
    ensures ReadEnd(|data|, pos, 1) - 1 == PeekPos(data, pos)
  {
    if pos < |data| {
      var b := data[pos..pos + 1];
      assert b == [data[pos]] && b[..0] == [];
    }
  }

  /**
   * The page loop has added `log` and is about to peek at `pos` with the
   * counter at `counter`: the walk from here completes `target`, brings the
   * counter to `last` and leaves the cursor at `end`.
   */
  ghost predicate WalkState(data: seq<Byte>, ps: nat, target: seq<Entry>, last: nat, end: nat, log: seq<Entry>, pos: nat, counter: nat)
    requires 0 < ps && 0 < |data|
  {
    pos <= |data| &&
    var w := PageWalk(data, ps, pos, counter);
    target == log + w.entries && last == counter + w.pages && end == w.end
  }

  /** One dispatched page: either the loop stops with everything reached, or the state moves on a page. */
  lemma WalkStep(data: seq<Byte>, ps: nat, target: seq<Entry>, last: nat, end: nat, log: seq<Entry>, pos: nat, counter: nat)
    requires 0 < ps && 0 < |data| && WalkState(data, ps, target, last, end, log, pos, counter)
    ensures var s := PeekPos(data, pos);
      var k := Kind(PeekByte(data, pos));
      var e := PageEnd(data, ps, s, k);
      var next := log + PageEntries(data, ps, s, counter, k);
      (e + ps > |data| ==> target == next && last == counter + 1 && end == e) &&
      (e + ps <= |data| ==> pos < e && WalkState(data, ps, target, last, end, next, e, counter + 1))
  {
    var s := PeekPos(data, pos);
    var k := Kind(PeekByte(data, pos));
    var e := PageEnd(data, ps, s, k);
    var es := PageEntries(data, ps, s, counter, k);
    PageAdvances(data, ps, s, k);
    if e + ps <= |data| {
      var rest := PageWalk(data, ps, e, counter + 1);
      assert PageWalk(data, ps, pos, counter) == Walk(es + rest.entries, rest.pages + 1, rest.end);
      AppendTwo(log, es, rest.entries);
    } else {
      assert PageWalk(data, ps, pos, counter) == Walk(es, 1, e);
    }
  }


  /** Once page 1 is parsed, the walk from its end with the first counter completes the layout. */
  lemma WalkStart(data: seq<Byte>, c0: seq<Byte>)
    requires 0 < PageSize(data) && |c0| == 3
    ensures 0 < |data|
    ensures WalkState(data, PageSize(data), Layout(data, c0), FinalCounter(data), Rest(data).end,
      Header(data, c0, HeaderLengths, HeaderNames, 23) + PageOneBody(data), PageOneEnd(data), FirstCounter(data))
  {
    PageSizeNeedsBytes(data);
  }

  /** The counter the page loop resumes with after page 1, seen from the `continue` test. */
  lemma FirstWalk(data: seq<Byte>, ps: nat, target: seq<Entry>, last: nat, end: nat, log: seq<Entry>)
    requires 0 < ps && 0 < |data| && ps == PageSize(data)
    requires WalkState(data, ps, target, last, end, log, PageOneEnd(data), FirstCounter(data))
    ensures WalkState(data, ps, target, last, end, log, PageOneEnd(data), if PageOneEnd(data) == ps then Skipped(data, 2) else 2)
  {
  }
}
