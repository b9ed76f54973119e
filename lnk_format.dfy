/**
 * The LNK decoder's layout as functions of the stream's bytes, following
 * MS-SHLLINK: the 76-byte ShellLinkHeader (section 2.1) with its LinkFlags
 * (section 2.1.1), the LinkTargetIDList and its ItemIDs (sections 2.2-2.2.2),
 * LinkInfo and VolumeID (sections 2.3 and 2.3.1) and the size fields of
 * StringData (section 2.4); the GUID text (section 2.3.4.2 of MS-DTYP) and
 * FILETIME conversion (section 2.3.3 of MS-DTYP).
 */
module LnkFormat {
  import opened Bytes
  import opened Streams
  import opened Common

  /** `recognizes`: the first four bytes are the header size 0x0000004C, little-endian. */
  function IsLnk(data: seq<Byte>): (b: bool)
    ensures b <==> |data| >= 4 && data[0] == 0x4C && data[1] == 0 && data[2] == 0 && data[3] == 0
  {
    ReadAt(data, 0, 4) == [0x4C, 0, 0, 0]
  }

  /** LINK_FLAGS_MAPPING, bit 0 first. */
  const LinkFlagNames: seq<string> := [
    "HasLinkTargetIDList", "HasLinkInfo", "HasName", "HasRelativePath",
    "HasWorkingDir", "HasArguments", "HasIconLocation", "IsUnicode",
    "ForceNoLinkInfo", "HasExpString", "RunInSeparateThread", "Unused1",
    "HasDarwinID", "RunAsUser", "HasExpIcon", "NoPidlAlias",
    "Unused2", "RunWithShimLayer", "ForceNoLinkTrack", "EnableTargetMetadata",
    "DisableLinkPathTracking", "DisableKnownFolderTracking", "DisableKnownFolderAlias", "AllowLinkToLink",
    "UnaliasOnSave", "PreferEnvironmentPath", "KeepLocalIDListForUNCTarget", "Unused3",
    "Unused4", "NoSpecialFolderTracking", "TargetMetadataInOptimizedFormat", "Unused5"]

  /** The keys of SHOW_COMMAND: the only show-command values the decoder accepts. */
  predicate KnownShowCommand(v: nat)
  {
    v == 1 || v == 3 || v == 7
  }

  // ---------------------------------------------------------------------------
  // GUID text

  /** `''.join(f'{x:02x}' for x in s)`: the bytes in order, two digits each. */
  function HexBytes(s: seq<Byte>): (r: string)
    ensures |r| == 2 * |s|
  {
    if s == [] then "" else Hex2(s[0]) + HexBytes(s[1..])
  }

  /** The bytes in reverse order, two digits each: how a little-endian integer prints. */
  function HexBytesRev(s: seq<Byte>): (r: string)
    ensures |r| == 2 * |s|
  {
    if s == [] then "" else HexBytesRev(s[1..]) + Hex2(s[0])
  }

  /** `f'{n:0<2k>x}'` of a little-endian integer of k bytes is its bytes printed last first. */
  lemma {:induction false} LEHex(s: seq<Byte>)
    ensures Hex(LE(s), 2 * |s|) == HexBytesRev(s)
  {
    if s != [] {
      LEHex(s[1..]);
      HexSplitByte(LE(s), 2 * |s| - 2);
      assert LE(s) / 256 == LE(s[1..]) && LE(s) % 256 == s[0];
    }
  }

  /** `bytes_to_guid`: raises ValueError (None here) unless given exactly 16 bytes. */
  function BytesToGuid(b: seq<Byte>): (r: Option<string>)
    ensures r.Some? <==> |b| == 16
    ensures r.Some? ==> |r.value| == 36
  {
    if |b| != 16 then None else Some(Guid(b))
  }

  /** The 8-4-4-4-12 text: three little-endian integers, then two runs of bytes in order. */
  function Guid(b: seq<Byte>): (g: string)
    requires |b| == 16
    ensures |g| == 36 && g[8] == '-' && g[13] == '-' && g[18] == '-' && g[23] == '-'
  {
    Hex(LE(b[0..4]), 8) + "-" + Hex(LE(b[4..6]), 4) + "-" + Hex(LE(b[6..8]), 4) + "-" + HexBytes(b[8..10]) + "-" + HexBytes(b[10..16])
  }

  /** Pairs of hex digits back to the bytes they print, in order. */
  function ParseHexBytes(t: string): (s: seq<Byte>)
    requires |t| % 2 == 0
    ensures |s| == |t| / 2
  {
    if t == [] then [] else [ParseHex2(t[..2])] + ParseHexBytes(t[2..])
  }

  /** Pairs of hex digits back to the bytes of the little-endian integer they print. */
  function ParseHexRev(t: string): (s: seq<Byte>)
    requires |t| % 2 == 0
    ensures |s| == |t| / 2
  {
    if t == [] then [] else [ParseHex2(t[|t| - 2..])] + ParseHexRev(t[..|t| - 2])
  }

  lemma {:induction false} HexBytesInverse(s: seq<Byte>)
    ensures ParseHexBytes(HexBytes(s)) == s
  {
    if s != [] {
      var t := HexBytes(s);
      assert t[..2] == Hex2(s[0]) && t[2..] == HexBytes(s[1..]);
      Hex2Inverse(s[0]);
      HexBytesInverse(s[1..]);
    }
  }

  lemma {:induction false} HexBytesRevInverse(s: seq<Byte>)
    ensures ParseHexRev(HexBytesRev(s)) == s
  {
    if s != [] {
      var t := HexBytesRev(s);
      assert t[|t| - 2..] == Hex2(s[0]) && t[..|t| - 2] == HexBytesRev(s[1..]);
      Hex2Inverse(s[0]);
      HexBytesRevInverse(s[1..]);
    }
  }

  /** The bytes a GUID text stands for. */
  function GuidBytes(g: string): (b: seq<Byte>)
    requires |g| == 36
    ensures |b| == 16
  {
    ParseHexRev(g[0..8]) + ParseHexRev(g[9..13]) + ParseHexRev(g[14..18]) + ParseHexBytes(g[19..23]) + ParseHexBytes(g[24..36])
  }

  /** Five runs of 8, 4, 4, 4 and 12 characters joined by dashes can be sliced back out. */
  lemma DashedRuns(p1: string, p2: string, p3: string, p4: string, p5: string)
    requires |p1| == 8 && |p2| == 4 && |p3| == 4 && |p4| == 4 && |p5| == 12
    ensures var g := p1 + "-" + p2 + "-" + p3 + "-" + p4 + "-" + p5;
      g[0..8] == p1 && g[9..13] == p2 && g[14..18] == p3 && g[19..23] == p4 && g[24..36] == p5
  {
  }

  /** The five runs of digits sit between the dashes of the GUID text. */
  lemma GuidParts(b: seq<Byte>)
    requires |b| == 16
    ensures var g := Guid(b);
      g[0..8] == Hex(LE(b[0..4]), 8) && g[9..13] == Hex(LE(b[4..6]), 4) && g[14..18] == Hex(LE(b[6..8]), 4) &&
      g[19..23] == HexBytes(b[8..10]) && g[24..36] == HexBytes(b[10..16])
  {
    DashedRuns(Hex(LE(b[0..4]), 8), Hex(LE(b[4..6]), 4), Hex(LE(b[6..8]), 4), HexBytes(b[8..10]), HexBytes(b[10..16]));
  }

  /** The GUID text loses nothing: the 16 bytes can be read back from it. */
  lemma GuidRoundTrip(b: seq<Byte>)
    requires |b| == 16
    ensures GuidBytes(Guid(b)) == b
  {
    GuidParts(b);
    LEHex(b[0..4]);
    LEHex(b[4..6]);
    LEHex(b[6..8]);
    HexBytesRevInverse(b[0..4]);
    HexBytesRevInverse(b[4..6]);
    HexBytesRevInverse(b[6..8]);
    HexBytesInverse(b[8..10]);
    HexBytesInverse(b[10..16]);
    JoinSlices(b, 0, 4, 6);
    JoinSlices(b, 0, 6, 8);
    JoinSlices(b, 0, 8, 10);
    JoinSlices(b, 0, 10, 16);
    assert b[0..16] == b;
  }

  /** Every character of a hex rendering is a lower-case hex digit. */
  predicate LowerHex(s: string)
  {
    forall i :: 0 <= i < |s| ==> '0' <= s[i] <= '9' || 'a' <= s[i] <= 'f'
  }

  lemma {:induction false} HexLower(n: nat, width: nat)
    ensures LowerHex(Hex(n, width))
  {
    if width > 0 {
      HexLower(n / 16, width - 1);
    }
  }

  lemma {:induction false} HexBytesLower(s: seq<Byte>)
    ensures LowerHex(HexBytes(s))
  {
    if s != [] {
      HexLower(s[0], 2);
      HexBytesLower(s[1..]);
    }
  }

  /** Outside the four dashes, the GUID text is lower-case hex digits. */
  lemma GuidDigits(b: seq<Byte>)
    requires |b| == 16
    ensures var g := Guid(b); LowerHex(g[0..8]) && LowerHex(g[9..13]) && LowerHex(g[14..18]) && LowerHex(g[19..23]) && LowerHex(g[24..36])
  {
    GuidParts(b);
    HexLower(LE(b[0..4]), 8);
    HexLower(LE(b[4..6]), 4);
    HexLower(LE(b[6..8]), 4);
    HexBytesLower(b[8..10]);
    HexBytesLower(b[10..16]);
  }

  // ---------------------------------------------------------------------------
  // Flag bits

  /** `is_bit_set(d, k)`: bit k mod 8 of byte k div 8 (an index past the bytes raises). */
  function IsBitSet(d: seq<Byte>, k: nat): bool
    requires k / 8 < |d|
  {
    Bit(d[k / 8], k % 8)
  }

  /** Testing the raw little-endian bytes and testing the integer they encode agree. */
  lemma IsBitSetLE(d: seq<Byte>, k: nat)
    requires k < 8 * |d|
    ensures IsBitSet(d, k) == Bit(LE(d), k)
  {
    LEBit(d, k);
  }

  /** `get_active_flags` before rendering: each flag name with whether its bit is set. */
  function ActiveFlags(x: nat): (r: seq<(string, bool)>)
    ensures |r| == 32
  {
    seq(32, i requires 0 <= i < 32 => (LinkFlagNames[i], Bit(x, i)))
  }

  /** The flag list of the link-flags integer marks flag k exactly when `is_bit_set` finds bit k. */
  lemma ActiveFlagsAgree(d: seq<Byte>, k: nat)
    requires |d| == 4 && k < 32
    ensures ActiveFlags(LE(d))[k] == (LinkFlagNames[k], IsBitSet(d, k))
  {
    IsBitSetLE(d, k);
  }

  /** `bytes_to_binary`: `format(byte, '08b')` of each byte, in order. */
  function BytesToBinary(d: seq<Byte>): (r: string)
    ensures |r| == 8 * |d|
  {
    if d == [] then "" else Binary(d[0], 8) + BytesToBinary(d[1..])
  }

  /** Character 8i + 7 - k is '1' exactly when bit k of byte i is set: eight digits per byte, most significant first. */
  lemma {:induction false} BytesToBinaryBit(d: seq<Byte>, i: nat, k: nat)
    requires i < |d| && k < 8
    ensures (BytesToBinary(d)[8 * i + 7 - k] == '1') == Bit(d[i], k)
  {
    if i == 0 {
      BinaryDigit(d[0], 8, k);
    } else {
      BytesToBinaryBit(d[1..], i - 1, k);
    }
  }

  /** Reading the binary text of little-endian bytes gives the bits of the integer they encode. */
  lemma BytesToBinaryLE(d: seq<Byte>, k: nat)
    requires k < 8 * |d|
    ensures (BytesToBinary(d)[8 * (k / 8) + 7 - k % 8] == '1') == Bit(LE(d), k)
  {
    BytesToBinaryBit(d, k / 8, k % 8);
    LEBit(d, k);
  }

  // ---------------------------------------------------------------------------
  // FILETIME

  /** `is_valid_filetime`: the bytes do not start with a space. */
  function IsValidFiletime(b: seq<Byte>): (r: bool)
    ensures !r <==> |b| > 0 && b[0] == 0x20
  {
    !(|b| > 0 && b[0] == 0x20)
  }

  /**
   * The bound the decoder compares against: `(datetime.max - datetime(1601, 1, 1))`
   * in microseconds is 265046774399999999, which `total_seconds() * 1_000_000`
   * rounds, as a float, up to this value.
   */
  const MaxMicroseconds: nat := 265046774400000000

  /** The last microsecond a datetime can hold, counted from 1601-01-01. */
  const LastMicrosecond: nat := 265046774399999999

  /**
   * `filetime_to_datetime`: ticks of 100 ns as a little-endian integer, truncated
   * to microseconds past 1601-01-01. Past the float bound it returns a message;
   * exactly at the bound the addition overflows and the caught error becomes a
   * message too.
   */
  function FiletimeToDatetime(b: seq<Byte>): TableValue
  {
    var micros := LE(b) / 10;
    if micros > MaxMicroseconds then TimeText(OutOfRange, b)
    else if micros > LastMicrosecond then TimeText(AddOverflow, b)
    else Moment(micros)
  }

  /** The three outcomes of a conversion, each with its exact condition. */
  lemma FiletimeCases(b: seq<Byte>)
    ensures FiletimeToDatetime(b).Moment? <==> LE(b) < 10 * (LastMicrosecond + 1)
    ensures FiletimeToDatetime(b).Moment? ==> 10 * FiletimeToDatetime(b).micros <= LE(b) < 10 * FiletimeToDatetime(b).micros + 10
    ensures FiletimeToDatetime(b) == TimeText(OutOfRange, b) <==> LE(b) >= 10 * (MaxMicroseconds + 1)
    ensures FiletimeToDatetime(b) == TimeText(AddOverflow, b) <==> LE(b) / 10 == MaxMicroseconds
  {
  }

  /** Eight 0xFF bytes lie past the bound; ticks in the bound's last ten go to the caught overflow. */
  lemma FiletimeExtremes()
    ensures FiletimeToDatetime([0xFF, 0xFF, 0xFF, 0xFF, 0xFF, 0xFF, 0xFF, 0xFF]) == TimeText(OutOfRange, [0xFF, 0xFF, 0xFF, 0xFF, 0xFF, 0xFF, 0xFF, 0xFF])
    ensures FiletimeToDatetime([0x00, 0x40, 0xC0, 0xD1, 0x5E, 0x5A, 0xC8, 0x24]) == TimeText(AddOverflow, [0x00, 0x40, 0xC0, 0xD1, 0x5E, 0x5A, 0xC8, 0x24])
  {
  }

  // ---------------------------------------------------------------------------
  // Field names, as the decoder spells them

  const HeaderName: string := "Header"
  const GuidName: string := "GUID"
  const LinkFlagsName: string := "Link Flags"
  const AttributesName: string := "File Attributes"
  const CreationName: string := "Creation Time"
  const AccessName: string := "Access Time"
  const WriteName: string := "Write Time"
  const FileSizeName: string := "File size"
  const IconIndexName: string := "Icon Index"
  const ShowCommandName: string := "Show Command"
  const HotkeyName: string := "Hotkey"
  const ReservedName: string := "Reserved"
  const IdListSizeName: string := "Link info size"
  const TerminalName: string := "Terminal ID"
  const ItemSizeName: string := "Item ID size"
  const ItemDataName: string := "Item ID Data"
  const LinkInfoSizeName: string := "Link info Size"
  const LinkInfoHeaderSizeName: string := "Link info header size"
  const LinkInfoFlagsName: string := "Link info Flags"
  const VolumeIdOffsetName: string := "Volume ID Offset"
  const LocalBasePathOffsetName: string := "Local Base Path OFfset"
  const NetworkLinkOffsetName: string := "Common Network Relative Link Offset"
  const SuffixOffsetName: string := "Common Path Suffix Offset"
  const VolumeIdSizeName: string := "Volume ID Size Bytes"
  const DriveTypeName: string := "Drive Type Bytes"
  const DriveSerialName: string := "Drive Serial Number"
  const VolumeLabelOffsetName: string := "Volume Label Offset"
  const DataBytesName: string := "Data Bytes"
  const LocalBasePathName: string := "Local Base Path"
  const SuffixName: string := "Common Path Suffix"
  const NameSizeName: string := "Name String Size"
  const RelativePathSizeName: string := "Relative Path Size"
  const RelativePathName: string := "Relative Path String"
  const WorkingDirSizeName: string := "Working Dir"
  const WorkingDirName: string := "Working directory"
  const ArgumentsName: string := "Command Line Arguments"
  const IconLocationName: string := "Icon Location"

  // ---------------------------------------------------------------------------
  // Layout

  /** How a field's bytes become its `table_value`. */
  datatype Kind = AsRaw | AsNumber | AsUtf8 | AsUtf16 | AsBits | AsTime | AsCheckedTime

  function Render(k: Kind, b: seq<Byte>): TableValue
  {
    match k
    case AsRaw => Raw(b)
    case AsNumber => Number(LE(b))
    case AsUtf8 => Decoded(b, Utf8)
    case AsUtf16 => Decoded(b, Utf16Le)
    case AsBits => Text(BytesToBinary(b))
    case AsTime => FiletimeToDatetime(b)
    case AsCheckedTime => if IsValidFiletime(b) then FiletimeToDatetime(b) else TimeText(StartsWithSpace, b)
  }

  /** The bytes `read(len)` returns with the cursor at `off` (or at the end of a shorter stream). */
  function Slice(data: seq<Byte>, off: nat, len: nat): (r: seq<Byte>)
    ensures |r| <= len
    ensures off + len <= |data| ==> r == data[off..off + len]
  {
    data[Clamp(|data|, off)..Clamp(|data|, off + len)]
  }

  /**
   * `add_child(tell() - back, Node(read(len), name=name, table_value=...))`
   * with the cursor at `off`: the key is the cursor after the read less `back`,
   * which need not be the length read.
   */
  function Cut(data: seq<Byte>, off: nat, len: nat, back: nat, name: string, k: Kind): (e: Entry)
    ensures e.data == Slice(data, off, len) && e.name == Some(name) && e.color == None
    ensures off + len <= |data| ==> e.key == off + len - back
  {
    Entry(Clamp(|data|, off + len) - back, Slice(data, off, len), Some(name), None, Render(k, Slice(data, off, len)))
  }

  /** The header size and the GUID, rendered as text (only reached with the 16 GUID bytes present). */
  function Intro(data: seq<Byte>): seq<Entry>
    requires |data| >= 20
  {
    [Cut(data, 0, 4, 4, HeaderName, AsRaw), Entry(4, data[4..20], Some(GuidName), None, Text(Guid(data[4..20])))]
  }

  /**
   * The link flags, file attributes and the three timestamps. The access time is
   * converted whatever the validity check says; creation and write times that
   * start with a space are reported instead.
   */
  function Stamps(data: seq<Byte>): seq<Entry>
  {
    [Cut(data, 20, 4, 4, LinkFlagsName, AsBits), Cut(data, 24, 4, 4, AttributesName, AsNumber),
     Cut(data, 28, 8, 8, CreationName, AsCheckedTime), Cut(data, 36, 8, 8, AccessName, AsTime),
     Cut(data, 44, 8, 8, WriteName, AsCheckedTime)]
  }

  /** The file size, icon index and show command. */
  function Sizes(data: seq<Byte>): seq<Entry>
  {
    [Cut(data, 52, 4, 4, FileSizeName, AsNumber), Cut(data, 56, 4, 4, IconIndexName, AsNumber),
     Cut(data, 60, 4, 4, ShowCommandName, AsNumber)]
  }

  /** The hot key and the three reserved fields that close the 76-byte header. */
  function Reserved(data: seq<Byte>): seq<Entry>
  {
    [Cut(data, 64, 2, 2, HotkeyName, AsNumber), Cut(data, 66, 2, 2, ReservedName, AsNumber),
     Cut(data, 68, 4, 4, ReservedName, AsNumber), Cut(data, 72, 4, 4, ReservedName, AsNumber)]
  }

  function Prologue(data: seq<Byte>): seq<Entry>
    requires |data| >= 20
  {
    Intro(data) + Stamps(data) + Sizes(data) + Reserved(data)
  }

  /** The link flags to the write time as the parser appends them, one after another. */
  lemma StampsAfter(l: seq<Entry>, data: seq<Byte>)
    ensures l + [Cut(data, 20, 4, 4, LinkFlagsName, AsBits)] + [Cut(data, 24, 4, 4, AttributesName, AsNumber)]
      + [Cut(data, 28, 8, 8, CreationName, AsCheckedTime)] + [Cut(data, 36, 8, 8, AccessName, AsTime)]
      + [Cut(data, 44, 8, 8, WriteName, AsCheckedTime)] == l + Stamps(data)
  {
  }

  /** The file size, icon index and show command as the parser appends them. */
  lemma SizesAfter(l: seq<Entry>, data: seq<Byte>)
    ensures l + [Cut(data, 52, 4, 4, FileSizeName, AsNumber)] + [Cut(data, 56, 4, 4, IconIndexName, AsNumber)]
      + [Cut(data, 60, 4, 4, ShowCommandName, AsNumber)] == l + Sizes(data)
  {
  }

  /** The hot key and reserved fields as the parser appends them. */
  lemma ReservedAfter(l: seq<Entry>, data: seq<Byte>)
    ensures l + [Cut(data, 64, 2, 2, HotkeyName, AsNumber)] + [Cut(data, 66, 2, 2, ReservedName, AsNumber)]
      + [Cut(data, 68, 4, 4, ReservedName, AsNumber)] + [Cut(data, 72, 4, 4, ReservedName, AsNumber)] == l + Reserved(data)
  {
  }

  /** The show-command value read at offset 60. */
  function ShowCommand(data: seq<Byte>): nat
  {
    LE(Slice(data, 60, 4))
  }

  /** An accepted show command means the stream reaches past offset 60, so the flag bytes were read. */
  lemma ShowCommandNeedsBytes(data: seq<Byte>)
    requires KnownShowCommand(ShowCommand(data))
    ensures |data| > 60
  {
  }

  /** A cursor, and the records added while moving it there. */
  datatype Run = Run(es: seq<Entry>, end: nat)

  /**
   * The ItemID loop from `p`: a 2-byte size s, and unless s is 0, s - 2 more
   * bytes (`read(-1)`, the rest, when s is 1) and two records; a size of 0,
   * which is also what an exhausted stream gives, ends the list with the
   * TerminalName record.
   */
  function Items(data: seq<Byte>, p: nat): (r: Run)
    requires p <= |data|
    ensures p <= r.end <= |data| && r.es != []
    decreases |data| - p
  {
    var b := ReadAt(data, p, 2);
    var q := p + |b|;
    var s := LE(b);
    if s == 0 then Run([Entry(q - 2, b, Some(TerminalName), None, Number(0))], q)
    else
      var e := ReadEnd(|data|, q, s - 2);
      var rest := Items(data, e);
      Run([Entry(e - 2, b, Some(ItemSizeName), None, Number(s)), Entry(e - s, data[q..e], Some(ItemDataName), None, Decoded(data[q..e], Utf8))] + rest.es, rest.end)
  }

  /**
   * One turn of the ItemID loop, given what its reads return: a non-zero size s
   * read as b up to q, then data up to e, adds the two records before the rest
   * of the list.
   */
  lemma ItemsStep(data: seq<Byte>, p: nat, b: seq<Byte>, q: nat, e: nat)
    requires p <= |data| && q == ReadEnd(|data|, p, 2) && b == data[p..q] && LE(b) != 0
    requires e == ReadEnd(|data|, q, LE(b) - 2)
    ensures Items(data, p) == Run([Entry(e - 2, b, Some(ItemSizeName), None, Number(LE(b))),
                                   Entry(e - LE(b), data[q..e], Some(ItemDataName), None, Decoded(data[q..e], Utf8))] + Items(data, e).es,
                                  Items(data, e).end)
  {
    var read := ReadAt(data, p, 2);
    assert read == b && p + |read| == q;
  }

  /**
   * One turn of the ItemID loop as the parser performs it: appending the size
   * record and the data record d to a log l, then the rest of the list, is
   * appending the list from p.
   */
  lemma ItemsTurn(l: seq<Entry>, data: seq<Byte>, p: nat, b: seq<Byte>, s: nat, q: nat, d: seq<Byte>, e: nat)
    requires p <= |data| && q == ReadEnd(|data|, p, 2) && b == data[p..q] && s == LE(b) && s != 0
    requires e == ReadEnd(|data|, q, s - 2) && d == data[q..e]
    ensures l + [Entry(e - 2, b, Some(ItemSizeName), None, Number(s))]
      + [Entry(e - s, d, Some(ItemDataName), None, Decoded(d, Utf8))] + Items(data, e).es == l + Items(data, p).es
  {
    ItemsStep(data, p, b, q, e);
    PushTwo(l, Entry(e - 2, b, Some(ItemSizeName), None, Number(s)),
      Entry(e - s, d, Some(ItemDataName), None, Decoded(d, Utf8)), Items(data, e).es);
  }

  /** The last turn of the ItemID loop: a zero size (or an exhausted stream) gives the terminal record alone. */
  lemma ItemsStop(data: seq<Byte>, p: nat, b: seq<Byte>, q: nat)
    requires p <= |data| && q == ReadEnd(|data|, p, 2) && b == data[p..q] && LE(b) == 0
    ensures Items(data, p) == Run([Entry(q - 2, b, Some(TerminalName), None, Number(0))], q)
  {
  }

  /** The LinkTargetIDList: its 2-byte size (keyed 4 bytes back), then the items. */
  function IdList(data: seq<Byte>, p: nat): (r: Run)
    requires p <= |data|
    ensures p <= r.end <= |data|
  {
    var rest := Items(data, Clamp(|data|, p + 2));
    Run([Cut(data, p, 2, 4, IdListSizeName, AsNumber)] + rest.es, rest.end)
  }

  /** The seven 4-byte LinkInfo fields; all but the header size are keyed 2 bytes back. */
  function LinkInfoHeader(data: seq<Byte>, p: nat): seq<Entry>
  {
    [Cut(data, p, 4, 2, LinkInfoSizeName, AsNumber), Cut(data, p + 4, 4, 4, LinkInfoHeaderSizeName, AsNumber),
     Cut(data, p + 8, 4, 2, LinkInfoFlagsName, AsNumber), Cut(data, p + 12, 4, 2, VolumeIdOffsetName, AsNumber),
     Cut(data, p + 16, 4, 2, LocalBasePathOffsetName, AsNumber), Cut(data, p + 20, 4, 2, NetworkLinkOffsetName, AsNumber),
     Cut(data, p + 24, 4, 2, SuffixOffsetName, AsNumber)]
  }

  /** The VolumeID block: four 4-byte fields, one data byte and a 14-byte local base path. */
  function VolumeId(data: seq<Byte>, p: nat): seq<Entry>
  {
    [Cut(data, p, 4, 4, VolumeIdSizeName, AsNumber), Cut(data, p + 4, 4, 4, DriveTypeName, AsNumber),
     Cut(data, p + 8, 4, 4, DriveSerialName, AsNumber), Cut(data, p + 12, 4, 4, VolumeLabelOffsetName, AsNumber),
     Cut(data, p + 16, 1, 1, DataBytesName, AsNumber), Cut(data, p + 17, 14, 14, LocalBasePathName, AsUtf8)]
  }

  /** The LinkInfo flags value read at offset 8 of the block. */
  function LinkInfoFlags(data: seq<Byte>, p: nat): nat
  {
    LE(Slice(data, p + 8, 4))
  }

  /** LinkInfo: the header, the VolumeID only when the flags value is exactly 1, then the 1-byte common path suffix. */
  function LinkInfo(data: seq<Byte>, p: nat): (r: Run)
    requires p <= |data|
    ensures p <= r.end <= |data|
  {
    var v := if LinkInfoFlags(data, p) == 1 then 31 else 0;
    Run(LinkInfoHeader(data, p) + (if v == 31 then VolumeId(data, p + 28) else [])
        + [Cut(data, p + 28 + v, 1, 1, SuffixName, AsNumber)], Clamp(|data|, p + 29 + v))
  }

  /** The seven LinkInfo header fields as the parser appends them. */
  lemma LinkInfoHeaderAfter(l: seq<Entry>, data: seq<Byte>, p: nat)
    ensures l + [Cut(data, p, 4, 2, LinkInfoSizeName, AsNumber)] + [Cut(data, p + 4, 4, 4, LinkInfoHeaderSizeName, AsNumber)]
      + [Cut(data, p + 8, 4, 2, LinkInfoFlagsName, AsNumber)] + [Cut(data, p + 12, 4, 2, VolumeIdOffsetName, AsNumber)]
      + [Cut(data, p + 16, 4, 2, LocalBasePathOffsetName, AsNumber)] + [Cut(data, p + 20, 4, 2, NetworkLinkOffsetName, AsNumber)]
      + [Cut(data, p + 24, 4, 2, SuffixOffsetName, AsNumber)] == l + LinkInfoHeader(data, p)
  {
  }

  /** The six VolumeID fields as the parser appends them. */
  lemma VolumeIdAfter(l: seq<Entry>, data: seq<Byte>, p: nat)
    ensures l + [Cut(data, p, 4, 4, VolumeIdSizeName, AsNumber)] + [Cut(data, p + 4, 4, 4, DriveTypeName, AsNumber)]
      + [Cut(data, p + 8, 4, 4, DriveSerialName, AsNumber)] + [Cut(data, p + 12, 4, 4, VolumeLabelOffsetName, AsNumber)]
      + [Cut(data, p + 16, 1, 1, DataBytesName, AsNumber)] + [Cut(data, p + 17, 14, 14, LocalBasePathName, AsUtf8)]
      == l + VolumeId(data, p)
  {
  }

  /** A 2-byte little-endian size field keyed at its own offset. */
  function SizeField(data: seq<Byte>, p: nat, name: string): (r: Run)
    requires p <= |data|
    ensures p <= r.end <= |data|
  {
    Run([Cut(data, p, 2, 2, name, AsNumber)], Clamp(|data|, p + 2))
  }

  /**
   * A 2-byte count c, then 2c bytes of UTF-16LE text. The text record is keyed
   * 2c bytes back, or only c bytes back when `shortKey` holds (the working
   * directory).
   */
  function CountedString(data: seq<Byte>, p: nat, sizeName: string, textName: string, shortKey: bool): (r: Run)
    requires p <= |data|
    ensures p <= r.end <= |data|
  {
    var c := LE(Slice(data, p, 2));
    Run([Cut(data, p, 2, 2, sizeName, AsNumber), Cut(data, p + 2, 2 * c, if shortKey then c else 2 * c, textName, AsUtf16)],
        Clamp(|data|, p + 2 + 2 * c))
  }

  /** What the StringData part raises: the arguments record needs the name-size bytes, which exist only after bit 2. */
  datatype LnkError = GuidLength | NameStringUnbound

  /** Bit 2, HasName: the 2-byte name string size. */
  function NamePart(data: seq<Byte>, p: nat, f: Byte): (r: Run)
    requires p <= |data|
    ensures p <= r.end <= |data|
  {
    if Bit(f, 2) then SizeField(data, p, NameSizeName) else Run([], p)
  }

  /** Bit 3, HasRelativePath: the relative path count and text. */
  function PathPart(data: seq<Byte>, p: nat, f: Byte): (r: Run)
    requires p <= |data|
    ensures p <= r.end <= |data|
  {
    if Bit(f, 3) then CountedString(data, p, RelativePathSizeName, RelativePathName, false) else Run([], p)
  }

  /** Bit 4, HasWorkingDir: the working directory count and text. */
  function DirPart(data: seq<Byte>, p: nat, f: Byte): (r: Run)
    requires p <= |data|
    ensures p <= r.end <= |data|
  {
    if Bit(f, 4) then CountedString(data, p, WorkingDirSizeName, WorkingDirName, true) else Run([], p)
  }

  /** Bit 5, HasArguments: a 2-byte size read at `q`, recorded with the name-size bytes read at `p`. */
  function ArgumentsPart(data: seq<Byte>, p: nat, q: nat, f: Byte): (r: Run)
    requires q <= |data|
    ensures q <= r.end <= |data|
  {
    if Bit(f, 5) then Run([Arguments(data, p, q)], Clamp(|data|, q + 2)) else Run([], q)
  }

  /** Bit 6, HasIconLocation: the 2-byte icon location size. */
  function IconPart(data: seq<Byte>, p: nat, f: Byte): (r: Run)
    requires p <= |data|
    ensures p <= r.end <= |data|
  {
    if Bit(f, 6) then SizeField(data, p, IconLocationName) else Run([], p)
  }

  /**
   * The StringData size fields gated by flag bits 2 to 6 of the flags byte `f`:
   * bits 2, 5 and 6 read a 2-byte size; bits 3 and 4 a count and twice that many
   * bytes. The bit-5 record holds the bit-2 bytes, so bit 5 without bit 2 fails.
   */
  function StringData(data: seq<Byte>, p: nat, f: Byte): (r: Result<Run, LnkError>)
    requires p <= |data|
    ensures r.Ok? ==> p <= r.value.end <= |data|
  {
    var a := NamePart(data, p, f);
    var b := PathPart(data, a.end, f);
    var c := DirPart(data, b.end, f);
    if Bit(f, 5) && !Bit(f, 2) then Err(NameStringUnbound)
    else
      var d := ArgumentsPart(data, p, c.end, f);
      var e := IconPart(data, d.end, f);
      Ok(Run(a.es + b.es + c.es + d.es + e.es, e.end))
  }

  /** The arguments record: the name-size bytes read at `p`, valued with the 2-byte size read at `q`. */
  function Arguments(data: seq<Byte>, p: nat, q: nat): Entry
  {
    Entry(Clamp(|data|, q + 2) - 2, Slice(data, p, 2), Some(ArgumentsName), None, Number(LE(Slice(data, q, 2))))
  }

  /** Bit 0, HasLinkTargetIDList: the ID list. */
  function IdPart(data: seq<Byte>, p: nat, f: Byte): (r: Run)
    requires p <= |data|
    ensures p <= r.end <= |data|
  {
    if Bit(f, 0) then IdList(data, p) else Run([], p)
  }

  /** Bit 1, HasLinkInfo: the LinkInfo block. */
  function InfoPart(data: seq<Byte>, p: nat, f: Byte): (r: Run)
    requires p <= |data|
    ensures p <= r.end <= |data|
  {
    if Bit(f, 1) then LinkInfo(data, p) else Run([], p)
  }

  /** Everything after the 76-byte header: the ID list (bit 0), LinkInfo (bit 1) and StringData. */
  function Sections(data: seq<Byte>, p: nat, f: Byte): (r: Result<Run, LnkError>)
    requires p <= |data|
  {
    var id := IdPart(data, p, f);
    var li := InfoPart(data, id.end, f);
    var sd := StringData(data, li.end, f);
    if sd.Err? then Err(sd.error) else Ok(Run(id.es + li.es + sd.value.es, sd.value.end))
  }

  /**
   * `parse`: the records of the tree it returns, None when the show command is
   * not 1, 3 or 7 (the exception is caught), or the error it raises.
   */
  function Decode(data: seq<Byte>): Result<Option<seq<Entry>>, LnkError>
  {
    if |data| < 20 then Err(GuidLength)
    else if !KnownShowCommand(ShowCommand(data)) then Ok(None)
    else
      ShowCommandNeedsBytes(data);
      var s := Sections(data, Clamp(|data|, 76), data[20]);
      if s.Err? then Err(s.error) else Ok(Some(Prologue(data) + s.value.es))
  }

  /**
   * The outcomes of `parse` one by one: too short for the GUID, an unknown show
   * command, the StringData failure, or the tree.
   */
  lemma DecodeCases(data: seq<Byte>)
    ensures |data| < 20 ==> Decode(data) == Err(GuidLength)
    ensures |data| >= 20 && !KnownShowCommand(ShowCommand(data)) ==> Decode(data) == Ok(None)
    ensures |data| >= 20 && KnownShowCommand(ShowCommand(data)) ==> (
      |data| > 60 &&
      var s := Sections(data, Clamp(|data|, 76), data[20]);
      (s.Err? ==> Decode(data) == Err(NameStringUnbound)) &&
      (s.Ok? ==> Decode(data) == Ok(Some(Prologue(data) + s.value.es))))
  {
    if |data| >= 20 && KnownShowCommand(ShowCommand(data)) {
      ShowCommandNeedsBytes(data);
      var p := Clamp(|data|, 76);
      var f := data[20];
      var li := InfoPart(data, IdPart(data, p, f).end, f);
      StringDataFails(data, li.end, f);
    }
  }

  // ---------------------------------------------------------------------------
  // Properties of the layout

  /** Reading a record's bytes right after bytes covering the stream from `from` up to its offset extends the cover. */
  lemma ConcatCut(es: seq<Entry>, data: seq<Byte>, from: nat, off: nat, len: nat, back: nat, name: string, k: Kind)
    requires from <= Clamp(|data|, off) && Concat(es) == data[from..Clamp(|data|, off)]
    ensures Concat(es + [Cut(data, off, len, back, name, k)]) == data[from..Clamp(|data|, off + len)]
  {
    assert (es + [Cut(data, off, len, back, name, k)])[..|es|] == es;
    assert data[from..Clamp(|data|, off)] + data[Clamp(|data|, off)..Clamp(|data|, off + len)] == data[from..Clamp(|data|, off + len)];
  }

  lemma IntroTiles(data: seq<Byte>)
    requires |data| >= 76
    ensures Concat(Intro(data)) == data[..20]
  {
    var e0 := [Cut(data, 0, 4, 4, HeaderName, AsRaw)];
    ConcatCut([], data, 0, 0, 4, 4, HeaderName, AsRaw);
    assert Intro(data)[..1] == e0;
    assert data[..4] + data[4..20] == data[..20];
  }

  lemma StampsTile(data: seq<Byte>)
    requires |data| >= 76
    ensures Concat(Stamps(data)) == data[20..52]
  {
    var e3 := StampsFront(data);
    ConcatCut(e3, data, 20, 36, 8, 8, AccessName, AsTime);
    var e4 := e3 + [Cut(data, 36, 8, 8, AccessName, AsTime)];
    ConcatCut(e4, data, 20, 44, 8, 8, WriteName, AsCheckedTime);
    assert Stamps(data) == e4 + [Cut(data, 44, 8, 8, WriteName, AsCheckedTime)];
  }

  /** The flags, the attributes and the creation time cover bytes 20..36. */
  lemma StampsFront(data: seq<Byte>) returns (e3: seq<Entry>)
    requires |data| >= 76
    ensures e3 == [Cut(data, 20, 4, 4, LinkFlagsName, AsBits), Cut(data, 24, 4, 4, AttributesName, AsNumber), Cut(data, 28, 8, 8, CreationName, AsCheckedTime)]
    ensures Concat(e3) == data[20..36]
  {
    ConcatCut([], data, 20, 20, 4, 4, LinkFlagsName, AsBits);
    var e1 := [Cut(data, 20, 4, 4, LinkFlagsName, AsBits)];
    ConcatCut(e1, data, 20, 24, 4, 4, AttributesName, AsNumber);
    var e2 := e1 + [Cut(data, 24, 4, 4, AttributesName, AsNumber)];
    ConcatCut(e2, data, 20, 28, 8, 8, CreationName, AsCheckedTime);
    e3 := e2 + [Cut(data, 28, 8, 8, CreationName, AsCheckedTime)];
  }

  lemma SizesTile(data: seq<Byte>)
    requires |data| >= 76
    ensures Concat(Sizes(data)) == data[52..64]
  {
    var s := Sizes(data);
    ConcatThree(s[0], s[1], s[2]);
    JoinSlices(data, 52, 56, 60);
    JoinSlices(data, 52, 60, 64);
  }

  lemma ReservedTiles(data: seq<Byte>)
    requires |data| >= 76
    ensures Concat(Reserved(data)) == data[64..76]
  {
    var s := Reserved(data);
    ConcatFour(s[0], s[1], s[2], s[3]);
    JoinSlices(data, 64, 66, 68);
    JoinSlices(data, 64, 68, 72);
    JoinSlices(data, 64, 72, 76);
  }

  /** With the whole 76-byte header present, its fourteen records cut it into consecutive pieces. */
  lemma PrologueTiles(data: seq<Byte>)
    requires |data| >= 76
    ensures |Prologue(data)| == 14 && Concat(Prologue(data)) == data[..76]
  {
    IntroTiles(data);
    StampsTile(data);
    SizesTile(data);
    ReservedTiles(data);
    ConcatAppend(Intro(data), Stamps(data));
    ConcatAppend(Intro(data) + Stamps(data), Sizes(data));
    ConcatAppend(Intro(data) + Stamps(data) + Sizes(data), Reserved(data));
    JoinSlices(data, 0, 20, 52);
    JoinSlices(data, 0, 52, 64);
    JoinSlices(data, 0, 64, 76);
  }

  /** Where the fourteen header fields start. */
  const PrologueKeys: seq<int> := [0, 4, 20, 24, 28, 36, 44, 52, 56, 60, 64, 66, 68, 72]

  /** With the whole header present, every header record is keyed at its own offset. */
  lemma PrologueKeyed(data: seq<Byte>, i: nat)
    requires |data| >= 76 && i < 14
    ensures Prologue(data)[i].key == PrologueKeys[i]
  {
    var pr := Prologue(data);
    if i < 2 {
      assert pr[i] == Intro(data)[i];
    } else if i < 7 {
      assert pr[i] == Stamps(data)[i - 2];
    } else if i < 10 {
      assert pr[i] == Sizes(data)[i - 7];
    } else {
      assert pr[i] == Reserved(data)[i - 10];
    }
  }

  /** The access time is converted whatever its first byte, unlike the creation and write times. */
  lemma AccessTimeUnchecked(data: seq<Byte>)
    requires |data| >= 52
    ensures Stamps(data)[3].value == FiletimeToDatetime(data[36..44])
    ensures Stamps(data)[2].value == if data[28] == 0x20 then TimeText(StartsWithSpace, data[28..36]) else FiletimeToDatetime(data[28..36])
    ensures Stamps(data)[4].value == if data[44] == 0x20 then TimeText(StartsWithSpace, data[44..52]) else FiletimeToDatetime(data[44..52])
  {
  }

  /** Pairs of "Item ID size" and "Item ID Data" records, closed by one "Terminal ID" record. */
  predicate ItemNames(es: seq<Entry>)
    decreases |es|
  {
    (|es| == 1 && es[0].name == Some(TerminalName)) ||
    (|es| >= 3 && es[0].name == Some(ItemSizeName) && es[1].name == Some(ItemDataName) && ItemNames(es[2..]))
  }

  /** The ItemID loop adds exactly two records per non-zero size, then the terminal record. */
  lemma {:induction false} ItemsShape(data: seq<Byte>, p: nat)
    requires p <= |data|
    ensures ItemNames(Items(data, p).es)
    decreases |data| - p
  {
    var q := ReadEnd(|data|, p, 2);
    var b := data[p..q];
    if LE(b) != 0 {
      var e := ReadEnd(|data|, q, LE(b) - 2);
      ItemsStep(data, p, b, q, e);
      ItemsShape(data, e);
      var es := Items(data, p).es;
      assert es[2..] == Items(data, e).es;
    } else {
      ItemsStop(data, p, b, q);
    }
  }

  /**
   * An item whose size s (at least 2) fits in the stream covers s bytes from its
   * size field: its size record is keyed s - 2 bytes late and the next item
   * starts s bytes on.
   */
  lemma ItemCovers(data: seq<Byte>, p: nat)
    requires p + 2 <= |data| && LE(data[p..p + 2]) >= 2 && p + LE(data[p..p + 2]) <= |data|
    ensures var s := LE(data[p..p + 2]); var es := Items(data, p).es;
      es[0] == Entry(p + s - 2, data[p..p + 2], Some(ItemSizeName), None, Number(s)) &&
      es[1] == Entry(p, data[p + 2..p + s], Some(ItemDataName), None, Decoded(data[p + 2..p + s], Utf8)) &&
      es[2..] == Items(data, p + s).es
  {
    assert ReadAt(data, p, 2) == data[p..p + 2];
  }

  /** An exhausted stream reads a size of 0: the list is only its terminal record, keyed 2 before the end. */
  lemma ItemsAtEnd(data: seq<Byte>)
    ensures Items(data, |data|) == Run([Entry(|data| - 2, [], Some(TerminalName), None, Number(0))], |data|)
  {
    var b := ReadAt(data, |data|, 2);
    assert b == [] && LE(b) == 0;
  }

  /** The first four LinkInfo header fields cover 16 bytes. */
  lemma LinkInfoHeaderFront(data: seq<Byte>, p: nat)
    requires p + 28 <= |data|
    ensures Concat(LinkInfoHeader(data, p)[..4]) == data[p..p + 16]
  {
    var h := LinkInfoHeader(data, p);
    assert h[..4] == [h[0], h[1], h[2], h[3]];
    ConcatFour(h[0], h[1], h[2], h[3]);
    JoinSlices(data, p, p + 4, p + 8);
    JoinSlices(data, p, p + 8, p + 12);
    JoinSlices(data, p, p + 12, p + 16);
  }

  /** The last three LinkInfo header fields cover 12 bytes. */
  lemma LinkInfoHeaderBack(data: seq<Byte>, p: nat)
    requires p + 28 <= |data|
    ensures Concat(LinkInfoHeader(data, p)[4..]) == data[p + 16..p + 28]
  {
    var h := LinkInfoHeader(data, p);
    assert h[4..] == [h[4], h[5], h[6]];
    ConcatThree(h[4], h[5], h[6]);
    JoinSlices(data, p + 16, p + 20, p + 24);
    JoinSlices(data, p + 16, p + 24, p + 28);
  }

  /** With its bytes present, the LinkInfo header covers its 28 bytes. */
  lemma LinkInfoHeaderTiles(data: seq<Byte>, p: nat)
    requires p + 28 <= |data|
    ensures Concat(LinkInfoHeader(data, p)) == data[p..p + 28]
  {
    var h := LinkInfoHeader(data, p);
    LinkInfoHeaderFront(data, p);
    LinkInfoHeaderBack(data, p);
    ConcatAppend(h[..4], h[4..]);
    assert h[..4] + h[4..] == h;
    JoinSlices(data, p, p + 16, p + 28);
  }

  /** With its bytes present, the VolumeID block covers its 31 bytes. */
  lemma VolumeIdTiles(data: seq<Byte>, p: nat)
    requires p + 31 <= |data|
    ensures Concat(VolumeId(data, p)) == data[p..p + 31]
  {
    var v := VolumeId(data, p);
    assert v[..3] == [v[0], v[1], v[2]] && v[3..] == [v[3], v[4], v[5]];
    ConcatThree(v[0], v[1], v[2]);
    JoinSlices(data, p, p + 4, p + 8);
    JoinSlices(data, p, p + 8, p + 12);
    ConcatThree(v[3], v[4], v[5]);
    JoinSlices(data, p + 12, p + 16, p + 17);
    JoinSlices(data, p + 12, p + 17, p + 31);
    ConcatAppend(v[..3], v[3..]);
    assert v[..3] + v[3..] == v;
    JoinSlices(data, p, p + 12, p + 31);
  }

  /**
   * LinkInfo reads seven 4-byte fields, the 31-byte VolumeID block exactly when
   * the flags value is 1, then one byte; with the bytes all present its records
   * cover the block without gap or overlap.
   */
  lemma LinkInfoShape(data: seq<Byte>, p: nat)
    requires p + 60 <= |data|
    ensures var r := LinkInfo(data, p); var v := if LinkInfoFlags(data, p) == 1 then 31 else 0;
      |r.es| == (if v == 31 then 14 else 8) && r.end == p + 29 + v &&
      r.es[|r.es| - 1].name == Some(SuffixName) && Concat(r.es) == data[p..r.end]
  {
    var v := if LinkInfoFlags(data, p) == 1 then 31 else 0;
    var h := LinkInfoHeader(data, p);
    var vol := if v == 31 then VolumeId(data, p + 28) else [];
    LinkInfoHeaderTiles(data, p);
    if v == 31 {
      VolumeIdTiles(data, p + 28);
      ConcatAppend(h, vol);
      JoinSlices(data, p, p + 28, p + 59);
    } else {
      assert h + vol == h;
    }
    ConcatCut(h + vol, data, p, p + 28 + v, 1, 1, SuffixName, AsNumber);
  }

  /** A counted string with its bytes present reads the 2-byte count c and then exactly 2c bytes. */
  lemma CountedStringReads(data: seq<Byte>, p: nat, sizeName: string, textName: string, shortKey: bool)
    requires p + 2 <= |data| && p + 2 + 2 * LE(data[p..p + 2]) <= |data|
    ensures var c := LE(data[p..p + 2]); var r := CountedString(data, p, sizeName, textName, shortKey);
      r.end == p + 2 + 2 * c && r.es[0].data == data[p..p + 2] && r.es[1].data == data[p + 2..p + 2 + 2 * c] &&
      r.es[1].key == (if shortKey then p + 2 + c else p + 2)
  {
  }

  /** StringData fails exactly when flag bit 5 is set without bit 2. */
  lemma StringDataFails(data: seq<Byte>, p: nat, f: Byte)
    requires p <= |data|
    ensures StringData(data, p, f).Err? <==> Bit(f, 5) && !Bit(f, 2)
    ensures StringData(data, p, f).Err? ==> StringData(data, p, f).error == NameStringUnbound
  {
  }

  /** With bits 2 and 5 set, the arguments record holds the name-size bytes, not the arguments size it reports. */
  lemma ArgumentsHoldNameSize(data: seq<Byte>, p: nat, f: Byte)
    requires p <= |data| && Bit(f, 2) && Bit(f, 5)
    ensures var es := StringData(data, p, f).value.es;
      exists i :: 0 <= i < |es| && es[i].name == Some(ArgumentsName) && es[i].data == Slice(data, p, 2)
  {
    var a := SizeField(data, p, NameSizeName);
    var b := if Bit(f, 3) then CountedString(data, a.end, RelativePathSizeName, RelativePathName, false) else Run([], a.end);
    var c := if Bit(f, 4) then CountedString(data, b.end, WorkingDirSizeName, WorkingDirName, true) else Run([], b.end);
    var es := StringData(data, p, f).value.es;
    assert es[|a.es + b.es + c.es|] == Arguments(data, p, c.end);
  }
}
