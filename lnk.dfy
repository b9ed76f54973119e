/**
 * The LNK parser: straight-line cursor reads over the header, the ItemID loop,
 * LinkInfo and the StringData sizes, each appending records to the root node,
 * proved to produce the layout `LnkFormat.Decode` describes.
 */
module Lnk {
  import opened Bytes
  import opened Streams
  import opened Common
  import opened LnkFormat

  class LnkParser {
    const file: Stream

    constructor (file: Stream)
      ensures this.file == file
    {
      this.file := file;
    }

    static method Recognizes(file: Stream) returns (b: bool)
      requires file.Valid()
      modifies file`pos
      ensures file.Valid()
      ensures b == IsLnk(file.data)
    {
      file.Seek(0);
      var header := file.Read(4);
      b := header == [0x4C, 0x00, 0x00, 0x00];
    }

    /** `root.add_child(key, Node(data, name=name, table_value=value))`; no colour is given, so a random one is drawn. */
    static method AddNode(root: Node, key: int, data: seq<Byte>, name: string, value: TableValue)
      requires root.Valid()
      modifies root`children, root`log
      ensures root.Valid() && root.log == old(root.log) + [Entry(key, data, Some(name), None, value)]
    {
      var node := new Node(data, name, Some(name), None, value);
      node := root.AddChild(key, node);
    }

    /** `root.add_child(tell() - back, Node(read(len), name=name, table_value=...))` with the cursor at `off`. */
    method AddField(root: Node, ghost off: nat, len: nat, back: nat, name: string, kind: Kind) returns (b: seq<Byte>)
      requires file.Valid() && file.pos == Clamp(|file.data|, off) && root.Valid()
      modifies file`pos, root`children, root`log
      ensures file.Valid() && file.pos == Clamp(|file.data|, off + len)
      ensures b == Slice(file.data, off, len)
      ensures root.Valid() && root.log == old(root.log) + [Cut(file.data, off, len, back, name, kind)]
    {
      b := file.Read(len);
      AddNode(root, file.Tell() - back, b, name, Render(kind, b));
    }

    /** The link flags, file attributes and the three timestamps; returns the flag bytes. */
    method ParseStamps(root: Node) returns (flags: seq<Byte>)
      requires file.Valid() && file.pos == Clamp(|file.data|, 20) && root.Valid()
      modifies file`pos, root`children, root`log
      ensures file.Valid() && file.pos == Clamp(|file.data|, 52)
      ensures flags == Slice(file.data, 20, 4)
      ensures root.Valid() && root.log == old(root.log) + Stamps(file.data)
    {
      flags := AddField(root, 20, 4, 4, LinkFlagsName, AsBits);
      var b := AddField(root, 24, 4, 4, AttributesName, AsNumber);
      b := AddField(root, 28, 8, 8, CreationName, AsCheckedTime);
      b := AddField(root, 36, 8, 8, AccessName, AsTime);
      b := AddField(root, 44, 8, 8, WriteName, AsCheckedTime);
      StampsAfter(old(root.log), file.data);
    }

    /**
     * The file size, icon index and show command. A show command other than
     * 1, 3 or 7 raises before its record is added (`ok` is false).
     */
    method ParseSizes(root: Node) returns (ok: bool)
      requires file.Valid() && file.pos == Clamp(|file.data|, 52) && root.Valid()
      modifies file`pos, root`children, root`log
      ensures file.Valid() && root.Valid()
      ensures ok <==> KnownShowCommand(ShowCommand(file.data))
      ensures ok ==> file.pos == Clamp(|file.data|, 64) && root.log == old(root.log) + Sizes(file.data)
    {
      var b := AddField(root, 52, 4, 4, FileSizeName, AsNumber);
      b := AddField(root, 56, 4, 4, IconIndexName, AsNumber);
      var showCommand := file.Read(4);
      var showCommandValue := LE(showCommand);
      if !KnownShowCommand(showCommandValue) {
        return false;
      }
      AddNode(root, file.Tell() - 4, showCommand, ShowCommandName, Number(showCommandValue));
      SizesAfter(old(root.log), file.data);
      ok := true;
    }

    /** The hot key and the three reserved fields. */
    method ParseReserved(root: Node)
      requires file.Valid() && file.pos == Clamp(|file.data|, 64) && root.Valid()
      modifies file`pos, root`children, root`log
      ensures file.Valid() && file.pos == Clamp(|file.data|, 76)
      ensures root.Valid() && root.log == old(root.log) + Reserved(file.data)
    {
      var b := AddField(root, 64, 2, 2, HotkeyName, AsNumber);
      b := AddField(root, 66, 2, 2, ReservedName, AsNumber);
      b := AddField(root, 68, 4, 4, ReservedName, AsNumber);
      b := AddField(root, 72, 4, 4, ReservedName, AsNumber);
      ReservedAfter(old(root.log), file.data);
    }

    /**
     * One turn of the ItemID loop: read a 2-byte size; unless it is 0, read
     * size - 2 bytes and add the size and data records.
     */
    method ParseItem(root: Node) returns (sizeBytes: seq<Byte>, size: nat)
      requires file.Valid() && root.Valid()
      modifies file`pos, root`children, root`log
      ensures file.Valid() && root.Valid()
      ensures sizeBytes == file.data[old(file.pos)..ReadEnd(|file.data|, old(file.pos), 2)] && size == LE(sizeBytes)
      ensures size == 0 ==> file.pos == ReadEnd(|file.data|, old(file.pos), 2) && root.log == old(root.log)
      ensures size != 0 ==> old(file.pos) < file.pos
      ensures size != 0 ==> root.log + Items(file.data, file.pos).es == old(root.log) + Items(file.data, old(file.pos)).es
      ensures size != 0 ==> Items(file.data, file.pos).end == Items(file.data, old(file.pos)).end
    {
      ghost var p := file.pos;
      sizeBytes := file.Read(2);
      size := LE(sizeBytes);
      if size == 0 {
        return;
      }
      ghost var q := file.pos;
      var itemIdData := file.Read(size - 2);
      ghost var e := file.pos;
      AddNode(root, file.Tell() - 2, sizeBytes, ItemSizeName, Number(size));
      AddNode(root, file.Tell() - size, itemIdData, ItemDataName, Decoded(itemIdData, Utf8));
      assert root.log == old(root.log) + [Entry(e - 2, sizeBytes, Some(ItemSizeName), None, Number(size))]
        + [Entry(e - size, itemIdData, Some(ItemDataName), None, Decoded(itemIdData, Utf8))];
      ItemsTurn(old(root.log), file.data, p, sizeBytes, size, q, itemIdData, e);
    }

    /**
     * The ItemID `while True` loop over `ParseItem`; the terminal record
     * follows the loop.
     */
    method ParseItems(root: Node)
      requires file.Valid() && root.Valid()
      modifies file`pos, root`children, root`log
      ensures file.Valid() && file.pos == Items(file.data, old(file.pos)).end
      ensures root.Valid() && root.log == old(root.log) + Items(file.data, old(file.pos)).es
    {
      ghost var target := root.log + Items(file.data, file.pos).es;
      ghost var p := file.pos;
      var itemIdSizeBytes: seq<Byte>;
      var itemIdSizeInt: nat;
      while true
        invariant file.Valid() && root.Valid()
        invariant root.log + Items(file.data, file.pos).es == target
        invariant Items(file.data, file.pos).end == Items(file.data, old(file.pos)).end
        decreases |file.data| - file.pos
      {
        p := file.pos;
        itemIdSizeBytes, itemIdSizeInt := ParseItem(root);
        if itemIdSizeInt == 0 {
          break;
        }
      }
      ItemsStop(file.data, p, itemIdSizeBytes, file.pos);
      AddNode(root, file.Tell() - 2, itemIdSizeBytes, TerminalName, Number(itemIdSizeInt));
    }

    /** The LinkTargetIDList: its size (keyed 4 bytes back although 2 were read), then the items. */
    method ParseIdList(root: Node)
      requires file.Valid() && root.Valid()
      modifies file`pos, root`children, root`log
      ensures file.Valid() && file.pos == IdList(file.data, old(file.pos)).end
      ensures root.Valid() && root.log == old(root.log) + IdList(file.data, old(file.pos)).es
    {
      ghost var l0 := root.log;
      ghost var p := file.pos;
      var b := AddField(root, p, 2, 4, IdListSizeName, AsNumber);
      ParseItems(root);
      AppendTwo(l0, [Cut(file.data, p, 2, 4, IdListSizeName, AsNumber)], Items(file.data, Clamp(|file.data|, p + 2)).es);
    }

    /** The first three LinkInfo header fields; returns the LinkInfo flags value. */
    method ParseLinkInfoFront(root: Node, ghost off: nat) returns (flags: nat)
      requires file.Valid() && file.pos == Clamp(|file.data|, off) && root.Valid()
      modifies file`pos, root`children, root`log
      ensures file.Valid() && file.pos == Clamp(|file.data|, off + 12)
      ensures flags == LinkInfoFlags(file.data, off)
      ensures root.Valid() && root.log == old(root.log) + [Cut(file.data, off, 4, 2, LinkInfoSizeName, AsNumber)]
        + [Cut(file.data, off + 4, 4, 4, LinkInfoHeaderSizeName, AsNumber)] + [Cut(file.data, off + 8, 4, 2, LinkInfoFlagsName, AsNumber)]
    {
      var b := AddField(root, off, 4, 2, LinkInfoSizeName, AsNumber);
      b := AddField(root, off + 4, 4, 4, LinkInfoHeaderSizeName, AsNumber);
      var flagsBytes := AddField(root, off + 8, 4, 2, LinkInfoFlagsName, AsNumber);
      flags := LE(flagsBytes);
    }

    /** The four offset fields that close the LinkInfo header. */
    method ParseLinkInfoOffsets(root: Node, ghost off: nat)
      requires file.Valid() && file.pos == Clamp(|file.data|, off + 12) && root.Valid()
      modifies file`pos, root`children, root`log
      ensures file.Valid() && file.pos == Clamp(|file.data|, off + 28)
      ensures root.Valid() && root.log == old(root.log) + [Cut(file.data, off + 12, 4, 2, VolumeIdOffsetName, AsNumber)]
        + [Cut(file.data, off + 16, 4, 2, LocalBasePathOffsetName, AsNumber)] + [Cut(file.data, off + 20, 4, 2, NetworkLinkOffsetName, AsNumber)]
        + [Cut(file.data, off + 24, 4, 2, SuffixOffsetName, AsNumber)]
    {
      var b := AddField(root, off + 12, 4, 2, VolumeIdOffsetName, AsNumber);
      b := AddField(root, off + 16, 4, 2, LocalBasePathOffsetName, AsNumber);
      b := AddField(root, off + 20, 4, 2, NetworkLinkOffsetName, AsNumber);
      b := AddField(root, off + 24, 4, 2, SuffixOffsetName, AsNumber);
    }

    /** The seven 4-byte LinkInfo header fields; returns the LinkInfo flags value. */
    method ParseLinkInfoHeader(root: Node, ghost off: nat) returns (flags: nat)
      requires file.Valid() && file.pos == Clamp(|file.data|, off) && root.Valid()
      modifies file`pos, root`children, root`log
      ensures file.Valid() && file.pos == Clamp(|file.data|, off + 28)
      ensures flags == LinkInfoFlags(file.data, off)
      ensures root.Valid() && root.log == old(root.log) + LinkInfoHeader(file.data, off)
    {
      flags := ParseLinkInfoFront(root, off);
      ParseLinkInfoOffsets(root, off);
      LinkInfoHeaderAfter(old(root.log), file.data, off);
    }

    /** The three 4-byte size, type and serial fields that open the VolumeID block. */
    method ParseVolumeFront(root: Node, ghost off: nat)
      requires file.Valid() && file.pos == Clamp(|file.data|, off) && root.Valid()
      modifies file`pos, root`children, root`log
      ensures file.Valid() && file.pos == Clamp(|file.data|, off + 12)
      ensures root.Valid() && root.log == old(root.log) + [Cut(file.data, off, 4, 4, VolumeIdSizeName, AsNumber)]
        + [Cut(file.data, off + 4, 4, 4, DriveTypeName, AsNumber)] + [Cut(file.data, off + 8, 4, 4, DriveSerialName, AsNumber)]
    {
      var b := AddField(root, off, 4, 4, VolumeIdSizeName, AsNumber);
      b := AddField(root, off + 4, 4, 4, DriveTypeName, AsNumber);
      b := AddField(root, off + 8, 4, 4, DriveSerialName, AsNumber);
    }

    /** The volume label offset, the data byte and the 14-byte local base path. */
    method ParseVolumeBack(root: Node, ghost off: nat)
      requires file.Valid() && file.pos == Clamp(|file.data|, off + 12) && root.Valid()
      modifies file`pos, root`children, root`log
      ensures file.Valid() && file.pos == Clamp(|file.data|, off + 31)
      ensures root.Valid() && root.log == old(root.log) + [Cut(file.data, off + 12, 4, 4, VolumeLabelOffsetName, AsNumber)]
        + [Cut(file.data, off + 16, 1, 1, DataBytesName, AsNumber)] + [Cut(file.data, off + 17, 14, 14, LocalBasePathName, AsUtf8)]
    {
      var b := AddField(root, off + 12, 4, 4, VolumeLabelOffsetName, AsNumber);
      b := AddField(root, off + 16, 1, 1, DataBytesName, AsNumber);
      b := AddField(root, off + 17, 14, 14, LocalBasePathName, AsUtf8);
    }

    /** The VolumeID block, read when the LinkInfo flags value is 1. */
    method ParseVolumeId(root: Node, ghost off: nat)
      requires file.Valid() && file.pos == Clamp(|file.data|, off) && root.Valid()
      modifies file`pos, root`children, root`log
      ensures file.Valid() && file.pos == Clamp(|file.data|, off + 31)
      ensures root.Valid() && root.log == old(root.log) + VolumeId(file.data, off)
    {
      ParseVolumeFront(root, off);
      ParseVolumeBack(root, off);
      VolumeIdAfter(old(root.log), file.data, off);
    }

    /** After the LinkInfo header: the VolumeID when the flags value is exactly 1, then the common path suffix byte. */
    method ParseLinkInfoTail(root: Node, ghost p: nat, linkInfoFlags: nat)
      requires file.Valid() && file.pos == Clamp(|file.data|, p + 28) && root.Valid()
      modifies file`pos, root`children, root`log
      ensures var v := if linkInfoFlags == 1 then 31 else 0;
        file.Valid() && file.pos == Clamp(|file.data|, p + 29 + v)
      ensures var v := if linkInfoFlags == 1 then 31 else 0;
        root.Valid() && root.log == old(root.log) + (if v == 31 then VolumeId(file.data, p + 28) else [])
          + [Cut(file.data, p + 28 + v, 1, 1, SuffixName, AsNumber)]
    {
      ghost var v := 0;
      if linkInfoFlags == 1 {
        ParseVolumeId(root, p + 28);
        v := 31;
      }
      var b := AddField(root, p + 28 + v, 1, 1, SuffixName, AsNumber);
    }

    /** LinkInfo: the header, then the VolumeID and the suffix. */
    method ParseLinkInfo(root: Node)
      requires file.Valid() && root.Valid()
      modifies file`pos, root`children, root`log
      ensures file.Valid() && file.pos == LinkInfo(file.data, old(file.pos)).end
      ensures root.Valid() && root.log == old(root.log) + LinkInfo(file.data, old(file.pos)).es
    {
      ghost var p := file.pos;
      var linkInfoFlags := ParseLinkInfoHeader(root, p);
      ParseLinkInfoTail(root, p, linkInfoFlags);
      ghost var v := if linkInfoFlags == 1 then 31 else 0;
      AppendThree(old(root.log), LinkInfoHeader(file.data, p), if v == 31 then VolumeId(file.data, p + 28) else [],
                  [Cut(file.data, p + 28 + v, 1, 1, SuffixName, AsNumber)]);
    }

    /** A 2-byte count c and then 2c bytes of UTF-16LE text, the text keyed c or 2c bytes back. */
    method ParseCountedString(root: Node, sizeName: string, textName: string, shortKey: bool)
      requires file.Valid() && root.Valid()
      modifies file`pos, root`children, root`log
      ensures file.Valid() && file.pos == CountedString(file.data, old(file.pos), sizeName, textName, shortKey).end
      ensures root.Valid() && root.log == old(root.log) + CountedString(file.data, old(file.pos), sizeName, textName, shortKey).es
    {
      ghost var p := file.pos;
      var sizeBytes := AddField(root, p, 2, 2, sizeName, AsNumber);
      var count := LE(sizeBytes);
      var text := AddField(root, p + 2, 2 * count, if shortKey then count else 2 * count, textName, AsUtf16);
      AppendTwo(old(root.log), [Cut(file.data, p, 2, 2, sizeName, AsNumber)],
                [Cut(file.data, p + 2, 2 * count, if shortKey then count else 2 * count, textName, AsUtf16)]);
    }

    /** Bit 2: the name string size; returns its bytes, the `name_string_bytes` that bit 5 records again. */
    method ParseNameSize(root: Node, flags: Byte) returns (nameStringBytes: Option<seq<Byte>>)
      requires file.Valid() && root.Valid()
      modifies file`pos, root`children, root`log
      ensures file.Valid() && file.pos == NamePart(file.data, old(file.pos), flags).end
      ensures root.Valid() && root.log == old(root.log) + NamePart(file.data, old(file.pos), flags).es
      ensures nameStringBytes == if Bit(flags, 2) then Some(Slice(file.data, old(file.pos), 2)) else None
    {
      nameStringBytes := None;
      if Bit(flags, 2) {
        var b := AddField(root, file.pos, 2, 2, NameSizeName, AsNumber);
        nameStringBytes := Some(b);
      }
    }

    /** Bit 3: the relative path. */
    method ParsePath(root: Node, flags: Byte)
      requires file.Valid() && root.Valid()
      modifies file`pos, root`children, root`log
      ensures file.Valid() && file.pos == PathPart(file.data, old(file.pos), flags).end
      ensures root.Valid() && root.log == old(root.log) + PathPart(file.data, old(file.pos), flags).es
    {
      if Bit(flags, 3) {
        ParseCountedString(root, RelativePathSizeName, RelativePathName, false);
      }
    }

    /** Bit 4: the working directory. */
    method ParseDir(root: Node, flags: Byte)
      requires file.Valid() && root.Valid()
      modifies file`pos, root`children, root`log
      ensures file.Valid() && file.pos == DirPart(file.data, old(file.pos), flags).end
      ensures root.Valid() && root.log == old(root.log) + DirPart(file.data, old(file.pos), flags).es
    {
      if Bit(flags, 4) {
        ParseCountedString(root, WorkingDirSizeName, WorkingDirName, true);
      }
    }

    /**
     * Bit 5: the arguments size, recorded with the name-size bytes; without
     * bit 2 those bytes were never read and the parse fails (`failed`).
     */
    method ParseArguments(root: Node, flags: Byte, nameStringBytes: Option<seq<Byte>>, ghost p: nat) returns (failed: bool)
      requires file.Valid() && root.Valid()
      requires nameStringBytes == if Bit(flags, 2) then Some(Slice(file.data, p, 2)) else None
      modifies file`pos, root`children, root`log
      ensures file.Valid() && root.Valid()
      ensures failed == (Bit(flags, 5) && !Bit(flags, 2))
      ensures !failed ==> file.pos == ArgumentsPart(file.data, p, old(file.pos), flags).end
      ensures !failed ==> root.log == old(root.log) + ArgumentsPart(file.data, p, old(file.pos), flags).es
    {
      failed := false;
      if Bit(flags, 5) {
        if nameStringBytes.None? {
          return true;
        }
        var argumentsBytes := file.Read(2);
        AddNode(root, file.Tell() - 2, nameStringBytes.value, ArgumentsName, Number(LE(argumentsBytes)));
      }
    }

    /** Bit 6: the icon location size. */
    method ParseIcon(root: Node, flags: Byte)
      requires file.Valid() && root.Valid()
      modifies file`pos, root`children, root`log
      ensures file.Valid() && file.pos == IconPart(file.data, old(file.pos), flags).end
      ensures root.Valid() && root.log == old(root.log) + IconPart(file.data, old(file.pos), flags).es
    {
      if Bit(flags, 6) {
        var b := AddField(root, file.pos, 2, 2, IconLocationName, AsNumber);
      }
    }

    /**
     * The StringData size fields gated by bits 2 to 6 of the flags byte; bit 5
     * without bit 2 fails (`failed`) after the earlier records were added.
     */
    method ParseStringData(root: Node, flags: Byte) returns (failed: bool)
      requires file.Valid() && root.Valid()
      modifies file`pos, root`children, root`log
      ensures file.Valid() && root.Valid()
      ensures failed == StringData(file.data, old(file.pos), flags).Err?
      ensures !failed ==> file.pos == StringData(file.data, old(file.pos), flags).value.end
      ensures !failed ==> root.log == old(root.log) + StringData(file.data, old(file.pos), flags).value.es
    {
      ghost var p := file.pos;
      ghost var l0 := root.log;
      var nameStringBytes := ParseNameSize(root, flags);
      ghost var a := root.log;
      ParsePath(root, flags);
      ghost var b := root.log;
      ParseDir(root, flags);
      ghost var c := root.log;
      failed := ParseArguments(root, flags, nameStringBytes, p);
      if failed {
        return;
      }
      ghost var d := root.log;
      ParseIcon(root, flags);
      ghost var data := file.data;
      ghost var na := NamePart(data, p, flags);
      ghost var pa := PathPart(data, na.end, flags);
      ghost var da := DirPart(data, pa.end, flags);
      ghost var aa := ArgumentsPart(data, p, da.end, flags);
      ghost var ia := IconPart(data, aa.end, flags);
      AppendFive(l0, na.es, pa.es, da.es, aa.es, ia.es);
    }

    /** The bit-0 ID list, when `is_bit_set(link_flags, 0)`. */
    method ParseIdPart(root: Node, flags: seq<Byte>)
      requires file.Valid() && root.Valid() && |flags| >= 1
      modifies file`pos, root`children, root`log
      ensures file.Valid() && file.pos == IdPart(file.data, old(file.pos), flags[0]).end
      ensures root.Valid() && root.log == old(root.log) + IdPart(file.data, old(file.pos), flags[0]).es
    {
      if IsBitSet(flags, 0) {
        ParseIdList(root);
      }
    }

    /** The bit-1 LinkInfo block, when `is_bit_set(link_flags, 1)`. */
    method ParseInfoPart(root: Node, flags: seq<Byte>)
      requires file.Valid() && root.Valid() && |flags| >= 1
      modifies file`pos, root`children, root`log
      ensures file.Valid() && file.pos == InfoPart(file.data, old(file.pos), flags[0]).end
      ensures root.Valid() && root.log == old(root.log) + InfoPart(file.data, old(file.pos), flags[0]).es
    {
      if IsBitSet(flags, 1) {
        ParseLinkInfo(root);
      }
    }

    /**
     * Everything after the 76-byte header, gated by the link flags: the ID list
     * (bit 0), LinkInfo (bit 1), then StringData, which may fail.
     */
    method ParseSections(root: Node, flags: seq<Byte>) returns (failed: bool)
      requires file.Valid() && root.Valid() && |flags| >= 1
      modifies file`pos, root`children, root`log
      ensures file.Valid() && root.Valid()
      ensures failed == Sections(file.data, old(file.pos), flags[0]).Err?
      ensures !failed ==> file.pos == Sections(file.data, old(file.pos), flags[0]).value.end
      ensures !failed ==> root.log == old(root.log) + Sections(file.data, old(file.pos), flags[0]).value.es
    {
      ghost var data := file.data;
      ghost var f := flags[0];
      ghost var id := IdPart(data, file.pos, f);
      ParseIdPart(root, flags);
      ghost var li := InfoPart(data, file.pos, f);
      ParseInfoPart(root, flags);
      ghost var sd := StringData(data, file.pos, f);
      failed := ParseStringData(root, flags[0]);
      if !failed {
        AppendThree(old(root.log), id.es, li.es, sd.value.es);
      }
    }

    /** The 4-byte header and the GUID; a GUID read short of 16 bytes raises (`ok` is false). */
    method ParseIntro(root: Node) returns (ok: bool)
      requires file.Valid() && file.pos == 0 && root.Valid() && root.log == []
      modifies file`pos, root`children, root`log
      ensures file.Valid() && root.Valid()
      ensures ok <==> |file.data| >= 20
      ensures ok ==> file.pos == 20 && root.log == Intro(file.data)
    {
      var header := AddField(root, 0, 4, 4, HeaderName, AsRaw);
      var guid := file.Read(16);
      var guidText := BytesToGuid(guid);
      if guidText.None? {
        return false;
      }
      AddNode(root, file.Tell() - 16, guid, GuidName, Text(guidText.value));
      ok := true;
    }

    /** The link flags to the reserved words: the fixed part of the header after the GUID. */
    method ParseFixed(root: Node) returns (ok: bool, flags: seq<Byte>)
      requires file.Valid() && |file.data| >= 20 && file.pos == 20
      requires root.Valid() && root.log == Intro(file.data)
      modifies file`pos, root`children, root`log
      ensures file.Valid() && root.Valid()
      ensures ok <==> KnownShowCommand(ShowCommand(file.data))
      ensures ok ==> |flags| >= 1 && flags[0] == file.data[20]
      ensures ok ==> file.pos == Clamp(|file.data|, 76) && root.log == Prologue(file.data)
    {
      flags := ParseStamps(root);
      ok := ParseSizes(root);
      if !ok {
        return;
      }
      ShowCommandNeedsBytes(file.data);
      ParseReserved(root);
    }

    /**
     * The body of `parse` on its root: the fixed header, then the sections.
     * `Ok(false)` is the caught show-command error; `Ok(true)` a complete tree.
     */
    method ParseInto(root: Node) returns (r: Result<bool, LnkError>)
      requires file.Valid() && root.Valid() && root.log == []
      modifies file`pos, root`children, root`log
      ensures file.Valid() && root.Valid()
      ensures r.Err? ==> Decode(file.data) == Err(r.error)
      ensures r == Ok(false) ==> Decode(file.data) == Ok(None)
      ensures r == Ok(true) ==> Decode(file.data) == Ok(Some(root.log))
    {
      DecodeCases(file.data);
      file.Seek(0);
      var ok := ParseIntro(root);
      if !ok {
        return Err(GuidLength);
      }
      var flags;
      ok, flags := ParseFixed(root);
      if !ok {
        return Ok(false);
      }
      var failed := ParseSections(root, flags);
      if failed {
        return Err(NameStringUnbound);
      }
      r := Ok(true);
    }

    /**
     * `parse`: a fresh "LNK File" node filled by `ParseInto`. A GUID read short
     * of 16 bytes raises (`GuidLength`), as does the bit-5 record without bit 2
     * (`NameStringUnbound`); an unknown show command is caught and gives no
     * tree (`Ok(None)`).
     */
    method Parse() returns (r: Result<Option<Node>, LnkError>)
      requires file.Valid()
      modifies file`pos
      ensures file.Valid()
      ensures r.Err? ==> Decode(file.data) == Err(r.error)
      ensures r == Ok(None) ==> Decode(file.data) == Ok(None)
      ensures r.Ok? && r.value.Some? ==> fresh(r.value.value) && r.value.value.data == [] && r.value.value.info == "LNK File"
      ensures r.Ok? && r.value.Some? ==> r.value.value.Valid() && Decode(file.data) == Ok(Some(r.value.value.log))
    {
      var root := new Node([], "LNK File", None, None, NoValue);
      var filled := ParseInto(root);
      if filled.Err? {
        return Err(filled.error);
      } else if !filled.value {
        return Ok(None);
      }
      r := Ok(Some(root));
    }
  }
}
