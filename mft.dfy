/**
 * The NTFS decoder: a 512-byte boot sector read as a fixed table of fields,
 * then a scan of 1024-byte MFT records that starts right after it and stops at
 * the first block whose first four bytes are not "FILE". Each accepted record
 * gets two children cut at fixed offsets: $STANDARD_INFORMATION and $FILE_NAME.
 */
module MftFormat {
  import opened Bytes
  import opened Streams
  import opened Common

  /**
   * The boot-sector table, in declared order, as three parallel columns:
   * each row's length, its name and its description.
   */
  const BootLengths: seq<nat> := [3, 8, 2, 1, 2, 3, 2, 1, 2, 2, 2, 4, 4, 4, 8, 8, 8, 1, 3, 1, 3, 8, 4, 426, 2]

  const BootNames: seq<string> := [
    "JMP and NOP",
    "NTFS String",
    "BPB",
    "Sectors Per Cluster",
    "Reserved Sectors",
    "Unused",
    "Unused by NTFS",
    "Media Descriptor",
    "Unused",
    "Sectors Per Track",
    "Number Of Heads",
    "Hidden Sectors",
    "Unused",
    "EBPB Unused",
    "Total sectors",
    "$MFT cluster number",
    "$MFTMirr cluster number",
    "Bytes/Clusters Per File Record Segment",
    "Unused",
    "Bytes/Clusters Per Index Buffer",
    "Unused",
    "Volume Serial Number",
    "Checksum",
    "Bootstrap Code",
    "End-of-sector Marker"
  ]

  const BootDescriptions: seq<string> := [
    "x86 JMP and NOP instructions",
    "OEM ID",
    "Bytes per sector",
    "Sectors Per Cluster",
    "Reserved Sectors, unused",
    "Unused",
    "Unused by NTFS",
    "Media Descriptor",
    "Unused",
    "Sectors Per Track",
    "Number Of Heads",
    "Hidden Sectors",
    "Unused",
    "EBPB Unused",
    "Total sectors",
    "$MFT cluster number",
    "$MFTMirr cluster number",
    "Bytes or Clusters Per File Record Segment",
    "Unused",
    "Bytes or Clusters Per Index Buffer",
    "Unused",
    "Volume Serial Number",
    "Checksum, unused",
    "Bootstrap Code",
    "End-of-sector Marker"
  ]

  /** The record signature "FILE". */
  const Magic: seq<Byte> := [0x46, 0x49, 0x4C, 0x45]

  const RecordSize: nat := 1024

  /** What `recognizes` tests: the four bytes read from offset 0 are "FILE". */
  function IsMft(data: seq<Byte>): (b: bool)
    ensures b <==> |data| >= 4 && data[..4] == Magic
  {
    ReadAt(data, 0, 4) == Magic
  }

  /** The children the table loop adds for the first n rows, read from offset 0. */
  function Boot(data: seq<Byte>, lens: seq<nat>, names: seq<string>, n: nat): (r: seq<Entry>)
    requires n <= |lens| == |names|
    ensures |r| == n
  {
    if n == 0 then [] else Boot(data, lens, names, n - 1) + [Piece(data, Offset(lens, n - 1), lens[n - 1], Some(names[n - 1]), None, NoValue)]
  }

  /** The 25 rows of the boot-sector table add up to 512 bytes; the end-of-sector marker sits at 510. */
  lemma BootSectorSize()
    ensures Offset(BootLengths, 24) == 510 && Offset(BootLengths, 25) == 512
  {
    assert Offset(BootLengths, 1) == 3;
    assert Offset(BootLengths, 2) == 11;
    assert Offset(BootLengths, 3) == 13;
    assert Offset(BootLengths, 4) == 14;
    assert Offset(BootLengths, 5) == 16;
    assert Offset(BootLengths, 6) == 19;
    assert Offset(BootLengths, 7) == 21;
    assert Offset(BootLengths, 8) == 22;
    assert Offset(BootLengths, 9) == 24;
    assert Offset(BootLengths, 10) == 26;
    assert Offset(BootLengths, 11) == 28;
    assert Offset(BootLengths, 12) == 32;
    assert Offset(BootLengths, 13) == 36;
    assert Offset(BootLengths, 14) == 40;
    assert Offset(BootLengths, 15) == 48;
    assert Offset(BootLengths, 16) == 56;
    assert Offset(BootLengths, 17) == 64;
    assert Offset(BootLengths, 18) == 65;
    assert Offset(BootLengths, 19) == 68;
    assert Offset(BootLengths, 20) == 69;
    assert Offset(BootLengths, 21) == 72;
    assert Offset(BootLengths, 22) == 80;
    assert Offset(BootLengths, 23) == 84;
    assert Offset(BootLengths, 24) == 510;
  }

  /** With the first n rows present, child i is keyed at the sum of the lengths before it and holds the bytes up to the next. */
  lemma {:induction false} BootAligned(data: seq<Byte>, lens: seq<nat>, names: seq<string>, n: nat, i: nat)
    requires n <= |lens| == |names| && Offset(lens, n) <= |data| && i < n
    ensures Offset(lens, i + 1) <= |data|
    ensures Boot(data, lens, names, n)[i] == Entry(Offset(lens, i), data[Offset(lens, i)..Offset(lens, i + 1)], Some(names[i]), None, NoValue)
  {
    if i < n - 1 {
      BootAligned(data, lens, names, n - 1, i);
    }
  }

  /** The table's bytes, concatenated in order, are the stream's first bytes up to the table's end (or all of a shorter stream). */
  lemma {:induction false} BootTiles(data: seq<Byte>, lens: seq<nat>, names: seq<string>, n: nat)
    requires n <= |lens| == |names|
    ensures Concat(Boot(data, lens, names, n)) == data[..Clamp(|data|, Offset(lens, n))]
  {
    if n > 0 {
      BootTiles(data, lens, names, n - 1);
      var es := Boot(data, lens, names, n - 1);
      var e := Piece(data, Offset(lens, n - 1), lens[n - 1], Some(names[n - 1]), None, NoValue);
      assert Boot(data, lens, names, n)[..n - 1] == es;
      assert data[..Clamp(|data|, Offset(lens, n - 1))] + e.data == data[..Clamp(|data|, Offset(lens, n))];
    }
  }

  /** Where the scan starts: after the boot sector, or at the end of a shorter stream. */
  function ScanStart(data: seq<Byte>): nat
  {
    Clamp(|data|, 512)
  }

  /** The boot-sector children hold the stream's first 512 bytes (all of a shorter stream), and the scan starts right after them. */
  lemma BootCoversSector(data: seq<Byte>)
    ensures Concat(Boot(data, BootLengths, BootNames, 25)) == data[..ScanStart(data)]
  {
    BootSectorSize();
    BootTiles(data, BootLengths, BootNames, 25);
  }

  /**
   * Keys are computed from the cursor after the read, so in a stream that ends
   * inside a row, that row and every later one are keyed before their offset:
   * in a 300-byte stream the end-of-sector marker (offset 510) is keyed at 298.
   */
  lemma MisalignedKey(data: seq<Byte>)
    requires |data| == 300
    ensures Boot(data, BootLengths, BootNames, 25)[24].key == 298
  {
    BootSectorSize();
  }

  /** Python's `s[a:b]` for non-negative bounds: empty when b <= a, clamped to the end. */
  function Slice(s: seq<Byte>, a: nat, b: int): (r: seq<Byte>)
    ensures b <= a || |s| <= a ==> r == []
    ensures a < b <= |s| ==> r == s[a..b]
    ensures a < |s| <= b ==> r == s[a..]
  {
    if b <= a || |s| <= a then [] else if b <= |s| then s[a..b] else s[a..]
  }

  /** `struct.unpack_from('<I', s, 0x64)` needs four bytes at 0x64. */
  predicate Complete(block: seq<Byte>)
  {
    |block| >= 0x68
  }

  /** The length `parse_file_name` computes: the little-endian u32 at 0x64 minus 0x18. */
  function FileNameLength(block: seq<Byte>): int
    requires Complete(block)
  {
    LE(block[0x64..0x68]) as int - 0x18
  }

  /** The two attribute children of a record, keyed relative to the record. */
  function Attributes(block: seq<Byte>): seq<Entry>
    requires Complete(block)
  {
    [Plain(0x30, Slice(block, 0x30, 0x30 + 72)), Plain(0x60, Slice(block, 0x78, 0x78 + FileNameLength(block)))]
  }

  /** A full record: $STANDARD_INFORMATION is bytes [0x30, 0x78), $FILE_NAME starts at 0x78 and is cut at the record's end. */
  lemma AttributesOfFullRecord(block: seq<Byte>)
    requires |block| == RecordSize
    ensures Attributes(block)[0] == Plain(0x30, block[0x30..0x78])
    ensures FileNameLength(block) <= 0 ==> Attributes(block)[1] == Plain(0x60, [])
    ensures 0 < FileNameLength(block) ==>
      Attributes(block)[1] == Plain(0x60, block[0x78..if 0x78 + FileNameLength(block) <= RecordSize then 0x78 + FileNameLength(block) else RecordSize])
  {
  }

  /** A block read from the scan position is a record when it starts with "FILE". */
  predicate IsRecord(block: seq<Byte>)
  {
    |block| >= 4 && block[..4] == Magic
  }

  /** The records the scan accepts from `pos` on, each with its start position. */
  function Records(data: seq<Byte>, pos: nat): seq<(nat, seq<Byte>)>
    requires pos <= |data|
    decreases |data| - pos
  {
    var end := ReadEnd(|data|, pos, RecordSize);
    if IsRecord(data[pos..end]) then [(pos, data[pos..end])] + Records(data, end) else []
  }

  /** The children of the "Master File Table" node. */
  function RecordEntries(rs: seq<(nat, seq<Byte>)>): (r: seq<Entry>)
    ensures |r| == |rs|
  {
    if rs == [] then [] else [Plain(rs[0].0, rs[0].1)] + RecordEntries(rs[1..])
  }

  /**
   * The accepted records start 1024 bytes apart, each starts with "FILE", and
   * all but the last are full 1024-byte records.
   */
  lemma {:induction false} RecordsSpaced(data: seq<Byte>, pos: nat, i: nat)
    requires pos <= |data| && i < |Records(data, pos)|
    ensures Records(data, pos)[i].0 == pos + RecordSize * i
    ensures IsRecord(Records(data, pos)[i].1)
    ensures i + 1 < |Records(data, pos)| ==> |Records(data, pos)[i].1| == RecordSize
    decreases |data| - pos
  {
    var end := ReadEnd(|data|, pos, RecordSize);
    if i > 0 {
      RecordsSpaced(data, end, i - 1);
      assert end == pos + RecordSize;
    } else if 1 < |Records(data, pos)| {
      assert Records(data, end) != [];
      assert end == pos + RecordSize;
    }
  }

  /**
   * The scan from `start` has reached `pos` having added `log`: the records
   * still to come complete `log`, and whether one of them is truncated decides.
   */
  ghost predicate ScanState(data: seq<Byte>, start: nat, pos: nat, log: seq<Entry>)
  {
    start <= pos <= |data| &&
    RecordEntries(Records(data, start)) == log + RecordEntries(Records(data, pos)) &&
    Truncated(data, start) == Truncated(data, pos)
  }

  lemma ScanAdvance(data: seq<Byte>, start: nat, pos: nat, log: seq<Entry>)
    requires ScanState(data, start, pos, log)
    requires IsRecord(data[pos..ReadEnd(|data|, pos, RecordSize)]) && Complete(data[pos..ReadEnd(|data|, pos, RecordSize)])
    ensures ScanState(data, start, ReadEnd(|data|, pos, RecordSize), log + [Plain(pos, data[pos..ReadEnd(|data|, pos, RecordSize)])])
  {
    var end := ReadEnd(|data|, pos, RecordSize);
    var rest := RecordEntries(Records(data, end));
    assert RecordEntries(Records(data, pos)) == [Plain(pos, data[pos..end])] + rest;
    assert log + ([Plain(pos, data[pos..end])] + rest) == (log + [Plain(pos, data[pos..end])]) + rest;
  }

  lemma ScanStop(data: seq<Byte>, start: nat, pos: nat, log: seq<Entry>)
    requires ScanState(data, start, pos, log)
    requires !IsRecord(data[pos..ReadEnd(|data|, pos, RecordSize)])
    ensures RecordEntries(Records(data, start)) == log && !Truncated(data, start)
  {
    assert log + [] == log;
  }

  lemma ScanFail(data: seq<Byte>, start: nat, pos: nat, log: seq<Entry>)
    requires ScanState(data, start, pos, log)
    requires IsRecord(data[pos..ReadEnd(|data|, pos, RecordSize)]) && !Complete(data[pos..ReadEnd(|data|, pos, RecordSize)])
    ensures Truncated(data, start)
  {
  }

  /** A block that does not start with "FILE" ends the scan: nothing from it on is a record. */
  lemma FirstRejectedStops(data: seq<Byte>, pos: nat)
    requires pos <= |data| && !IsRecord(data[pos..ReadEnd(|data|, pos, RecordSize)])
    ensures Records(data, pos) == []
  {
  }

  /** `parse_file_name` fails (struct.error) on an accepted record shorter than 0x68 bytes. */
  predicate Truncated(data: seq<Byte>, pos: nat)
    requires pos <= |data|
    decreases |data| - pos
  {
    var end := ReadEnd(|data|, pos, RecordSize);
    IsRecord(data[pos..end]) && (!Complete(data[pos..end]) || Truncated(data, end))
  }

  /** The scan fails exactly when one of the records it accepts is too short. */
  lemma {:induction false} TruncatedIff(data: seq<Byte>, pos: nat)
    requires pos <= |data|
    ensures Truncated(data, pos) <==> exists i :: 0 <= i < |Records(data, pos)| && !Complete(Records(data, pos)[i].1)
    decreases |data| - pos
  {
    var end := ReadEnd(|data|, pos, RecordSize);
    var block := data[pos..end];
    var rs := Records(data, pos);
    if IsRecord(block) {
      var later := Records(data, end);
      TruncatedIff(data, end);
      assert rs == [(pos, block)] + later;
      if !Complete(block) {
        assert rs[0].1 == block;
        assert Truncated(data, pos);
        assert exists i :: 0 <= i < |Records(data, pos)| && !Complete(Records(data, pos)[i].1);
      } else if Truncated(data, end) {
        var k :| 0 <= k < |later| && !Complete(later[k].1);
        assert rs[k + 1] == later[k];
        assert 0 <= k + 1 < |rs| && !Complete(rs[k + 1].1);
        assert Truncated(data, pos);
        assert exists i :: 0 <= i < |Records(data, pos)| && !Complete(Records(data, pos)[i].1);
      } else {
        forall i | 0 <= i < |rs|
          ensures Complete(rs[i].1)
        {
          if i > 0 {
            assert rs[i] == later[i - 1];
          }
        }
      }
    }
  }

  /** A record node: its two attribute children are cut from its bytes. */
  ghost predicate RecordNode(e: Node)
    reads e
  {
    e.Valid() && Complete(e.data) && e.log == Attributes(e.data)
  }

  /** The block read at `pos` is accepted by the scan but too short for $FILE_NAME's length. */
  predicate ShortRecordAt(data: seq<Byte>, pos: nat)
    requires pos <= |data|
  {
    var block := data[pos..ReadEnd(|data|, pos, RecordSize)];
    IsRecord(block) && !Complete(block)
  }

  /** How one pass of the scan loop ended. */
  datatype ScanStep = Next | Stop | Failed

  /** `parse` raised before returning a tree: the record starting here was too short to hold $FILE_NAME's length. */
  datatype MftError = TruncatedRecord(start: nat)
}

/** The NTFS decoder's parser object. */
module Mft {
  import opened Bytes
  import opened Streams
  import opened Common
  import opened MftFormat

  class MftParser {
    const file: Stream

    constructor (file: Stream)
      ensures this.file == file
    {
      this.file := file;
    }

    static method Recognizes(file: Stream) returns (b: bool)
      requires file.Valid()
      modifies file`pos
      ensures file.Valid()
      ensures b == IsMft(file.data)
    {
      file.Seek(0);
      var signature := file.Read(4);
      b := signature == Magic;
    }

    /** The table loop: one read and one child per row, keyed at the cursor minus the row's length. */
    method ParseTable(root: Node, lens: seq<nat>, descriptions: seq<string>, names: seq<string>)
      requires file.Valid() && file.pos == 0 && root.Valid() && root.log == []
      requires |lens| == |descriptions| == |names|
      modifies file`pos, root`children, root`log
      ensures file.Valid() && file.pos == Clamp(|file.data|, Offset(lens, |lens|))
      ensures root.Valid() && root.log == Boot(file.data, lens, names, |lens|)
    {
      for i := 0 to |lens|
        invariant file.Valid() && root.Valid()
        invariant file.pos == Clamp(|file.data|, Offset(lens, i))
        invariant root.log == Boot(file.data, lens, names, i)
      {
        var data := file.Read(lens[i]);
        var node := new Node(data, descriptions[i], Some(names[i]), None, NoValue);
        node := root.AddChild(file.Tell() - lens[i], node);
      }
    }

    /** `parse_standard_information` and `parse_file_name` on one accepted record. */
    method ParseAttributes(block: seq<Byte>, entry: Node)
      requires entry.Valid() && entry.log == [] && Complete(block)
      modifies entry`children, entry`log
      ensures entry.Valid() && entry.log == Attributes(block)
    {
      var info := new Node(Slice(block, 0x30, 0x30 + 72), "$STANDARD_INFORMATION Attribute", None, None, NoValue);
      info := entry.AddChild(0x30, info);
      var length := LE(block[0x64..0x68]) as int - 0x18;
      var name := new Node(Slice(block, 0x78, 0x78 + length), "$FILE_NAME Attribute", None, None, NoValue);
      name := entry.AddChild(0x60, name);
    }

    /**
     * One pass of the scan loop: read a block, stop unless it starts with
     * "FILE", otherwise add it to the MFT node and cut its two attributes.
     */
    method ScanRecord(mftRoot: Node) returns (step: ScanStep, ghost entry: Node)
      requires file.Valid() && mftRoot.Valid()
      modifies file`pos, mftRoot`children, mftRoot`log
      ensures file.Valid() && file.pos == ReadEnd(|file.data|, old(file.pos), RecordSize)
      ensures mftRoot.Valid()
      ensures step.Stop? <==> !IsRecord(file.data[old(file.pos)..file.pos])
      ensures step.Failed? <==> IsRecord(file.data[old(file.pos)..file.pos]) && !Complete(file.data[old(file.pos)..file.pos])
      ensures step.Stop? ==> mftRoot.children == old(mftRoot.children) && mftRoot.log == old(mftRoot.log)
      ensures step.Next? ==> mftRoot.log == old(mftRoot.log) + [Plain(old(file.pos), file.data[old(file.pos)..file.pos])]
      ensures step.Next? ==> mftRoot.children == old(mftRoot.children) + [(old(file.pos), entry)]
      ensures step.Next? ==> fresh(entry) && RecordNode(entry)
    {
      var entryStart := file.Tell();
      var entryData := file.Read(RecordSize);
      entry := mftRoot;
      if !(|entryData| >= 4 && entryData[..4] == Magic) {
        return Stop, entry;
      }
      if !Complete(entryData) {
        var entryNode := new Node(entryData, "MFT Entry", None, None, NoValue);
        entryNode := mftRoot.AddChild(entryStart, entryNode);
        return Failed, entryNode;
      }
      entry := AddRecord(mftRoot, entryStart, entryData);
      step := Next;
    }

    /** An accepted record: its node under the MFT node, then its two attribute children. */
    method AddRecord(mftRoot: Node, start: nat, block: seq<Byte>) returns (entry: Node)
      requires mftRoot.Valid() && Complete(block)
      modifies mftRoot`children, mftRoot`log
      ensures mftRoot.Valid() && mftRoot.log == old(mftRoot.log) + [Plain(start, block)]
      ensures mftRoot.children == old(mftRoot.children) + [(start, entry)]
      ensures fresh(entry) && RecordNode(entry) && entry.data == block
    {
      entry := new Node(block, "MFT Entry", None, None, NoValue);
      entry := mftRoot.AddChild(start, entry);
      ParseAttributes(block, entry);
    }

    /** The scan loop: one 1024-byte block per turn until a block is not a record or a record is too short. */
    method ScanAll(mftRoot: Node) returns (r: Result<(), MftError>)
      requires file.Valid() && mftRoot.Valid() && mftRoot.log == []
      modifies file`pos, mftRoot`children, mftRoot`log
      ensures mftRoot.Valid()
      ensures r.Ok? <==> !Truncated(file.data, old(file.pos))
      ensures r.Ok? ==> mftRoot.log == RecordEntries(Records(file.data, old(file.pos)))
      ensures r.Ok? ==> forall i :: 0 <= i < |mftRoot.children| ==> RecordNode(mftRoot.children[i].1)
      ensures r.Err? ==> old(file.pos) <= r.error.start <= |file.data| && ShortRecordAt(file.data, r.error.start)
    {
      ghost var data := file.data;
      ghost var start := file.pos;
      while true
        invariant file.Valid() && start <= file.pos && mftRoot.Valid()
        invariant ScanState(data, start, file.pos, mftRoot.log)
        invariant forall i :: 0 <= i < |mftRoot.children| ==> mftRoot.children[i].1 != mftRoot && RecordNode(mftRoot.children[i].1)
        decreases |data| - file.pos
      {
        var p := file.Tell();
        var step;
        ghost var entry;
        ghost var log := mftRoot.log;
        step, entry := ScanRecord(mftRoot);
        if step.Stop? {
          ScanStop(data, start, p, log);
          break;
        }
        if step.Failed? {
          ScanFail(data, start, p, log);
          return Err(TruncatedRecord(p));
        }
        ScanAdvance(data, start, p, log);
      }
      r := Ok(());
    }

    /** `parse_mft_entries`: the "Master File Table" node and the scan of 1024-byte blocks. */
    method ParseEntries(root: Node) returns (r: Result<Node, MftError>)
      requires file.Valid() && root.Valid()
      modifies file`pos, root`children, root`log
      ensures root.Valid()
      ensures r.Ok? <==> !Truncated(file.data, old(file.pos))
      ensures r.Ok? ==> fresh(r.value) && r.value.Valid() && r.value.log == RecordEntries(Records(file.data, old(file.pos)))
      ensures r.Ok? ==> forall i :: 0 <= i < |r.value.children| ==> RecordNode(r.value.children[i].1)
      ensures r.Ok? ==> root.log == old(root.log) + [Plain(old(file.pos), [])]
      ensures r.Ok? ==> root.children == old(root.children) + [(old(file.pos), r.value)]
      ensures r.Err? ==> old(file.pos) <= r.error.start <= |file.data| && ShortRecordAt(file.data, r.error.start)
    {
      var mftRoot := new Node([], "Master File Table", None, None, NoValue);
      var n := root.AddChild(file.Tell(), mftRoot);
      var scanned := ScanAll(mftRoot);
      if scanned.Err? {
        return Err(scanned.error);
      }
      r := Ok(mftRoot);
    }

    /**
     * `parse`: the boot-sector table from offset 0, then the MFT scan from
     * where the table left the cursor. The tree is returned unless a record
     * accepted by the scan is too short (Python raises struct.error).
     */
    method Parse() returns (r: Result<Node, MftError>)
      requires file.Valid()
      modifies file`pos
      ensures r.Ok? <==> !Truncated(file.data, ScanStart(file.data))
      ensures r.Ok? ==> fresh(r.value) && r.value.data == [] && r.value.info == "NTFS Boot Sector"
      ensures r.Ok? ==> r.value.Valid() && r.value.log == Boot(file.data, BootLengths, BootNames, 25) + [Plain(ScanStart(file.data), [])]
      ensures r.Ok? ==> r.value.children[25].1.log == RecordEntries(Records(file.data, ScanStart(file.data)))
      ensures r.Ok? ==> forall i :: 0 <= i < |r.value.children[25].1.children| ==> RecordNode(r.value.children[25].1.children[i].1)
      ensures r.Err? ==> ScanStart(file.data) <= r.error.start <= |file.data| && ShortRecordAt(file.data, r.error.start)
    {
      file.Seek(0);
      var root := new Node([], "NTFS Boot Sector", None, None, NoValue);
      BootSectorSize();
      ParseTable(root, BootLengths, BootDescriptions, BootNames);
      var entries := ParseEntries(root);
      if entries.Err? {
        return Err(entries.error);
      }
      r := Ok(root);
    }
  }
}
