/**
 * The JPEG decoder: the SOI marker (section B.1.1.3 of ITU-T T.81), one JFIF
 * APP0 segment read field by field with a fixed shape (JFIF 1.02), and a single
 * trailing node that holds whatever the stream has left.
 */
module Jpeg {
  import opened Bytes
  import opened Streams
  import opened Common

  /** The Start Of Image marker. */
  const SOI: seq<Byte> := [0xFF, 0xD8]

  /** What `recognizes` and `parse` test: the two bytes read from offset 0 are SOI. */
  function IsJpeg(data: seq<Byte>): (b: bool)
    ensures b <==> |data| >= 2 && data[0] == 0xFF && data[1] == 0xD8
  {
    ReadAt(data, 0, 2) == SOI
  }

  /** Where the cursor stands once the marker (and, after SOI, the APP0 fields) are read. */
  function HeadEnd(data: seq<Byte>): nat
  {
    if IsJpeg(data) then Clamp(|data|, 21) else Clamp(|data|, 2)
  }

  /**
   * The marker and, after SOI, the APP0 segment as read: marker, length,
   * identifier, version, density units, horizontal and vertical density,
   * thumbnail width and height, and one byte of thumbnail data whatever the
   * width and height say.
   */
  function Head(data: seq<Byte>): seq<Entry>
  {
    if IsJpeg(data) then
      [Entry(0, SOI, Some("Header"), None, NoValue)] + [Field(data, 2, 2)] + [Field(data, 4, 2)] + [Field(data, 6, 5)]
      + [Field(data, 11, 2)] + [Field(data, 13, 1)] + [Field(data, 14, 2)] + [Field(data, 16, 2)]
      + [Field(data, 18, 1)] + [Field(data, 19, 1)] + [Field(data, 20, 1)]
    else [Entry(0, ReadAt(data, 0, 2), None, None, NoValue)]
  }

  /** The children of the decoded tree: the trailing node is keyed one past the last key. */
  function Layout(data: seq<Byte>): seq<Entry>
  {
    var head := Head(data);
    head + if HeadEnd(data) < |data| then [Entry(head[|head| - 1].key + 1, data[HeadEnd(data)..], None, None, NoValue)] else []
  }

  /** The marker and the APP0 fields tile the bytes up to offset 21 (or the end of a shorter stream). */
  lemma {:induction false} HeadTiles(data: seq<Byte>)
    ensures Concat(Head(data)) == data[..HeadEnd(data)]
  {
    var n := |data|;
    var e0 := [Entry(0, SOI, Some("Header"), None, NoValue)];
    if IsJpeg(data) {
      assert Concat(e0) == Concat([]) + SOI;
      assert data[..Clamp(n, 2)] == SOI;
      var e1 := e0 + [Field(data, 2, 2)];
      ConcatField(e0, data, 2, 2);
      var e2 := e1 + [Field(data, 4, 2)];
      ConcatField(e1, data, 4, 2);
      var e3 := e2 + [Field(data, 6, 5)];
      ConcatField(e2, data, 6, 5);
      var e4 := e3 + [Field(data, 11, 2)];
      ConcatField(e3, data, 11, 2);
      var e5 := e4 + [Field(data, 13, 1)];
      ConcatField(e4, data, 13, 1);
      var e6 := e5 + [Field(data, 14, 2)];
      ConcatField(e5, data, 14, 2);
      var e7 := e6 + [Field(data, 16, 2)];
      ConcatField(e6, data, 16, 2);
      var e8 := e7 + [Field(data, 18, 1)];
      ConcatField(e7, data, 18, 1);
      var e9 := e8 + [Field(data, 19, 1)];
      ConcatField(e8, data, 19, 1);
      ConcatField(e9, data, 20, 1);
    } else {
      assert Concat(Head(data)) == Concat([]) + ReadAt(data, 0, 2);
    }
  }

  /** Records covering a prefix, followed by one record holding the rest (if any), cover the whole stream. */
  lemma CoverWithRest(head: seq<Entry>, data: seq<Byte>, e: nat, k: int)
    requires e <= |data| && Concat(head) == data[..e]
    ensures Concat(head + if e < |data| then [Entry(k, data[e..], None, None, NoValue)] else []) == data
  {
    var tail := if e < |data| then [Entry(k, data[e..], None, None, NoValue)] else [];
    ConcatAppend(head, tail);
    if e < |data| {
      assert Concat(tail) == Concat([]) + data[e..];
      assert data[..e] + data[e..] == data;
    } else {
      assert data[..e] == data;
    }
  }

  /** Every read is contiguous and the last one takes the rest: the children's bytes are the stream. */
  lemma LayoutCoversStream(data: seq<Byte>)
    ensures Concat(Layout(data)) == data
  {
    var head := Head(data);
    HeadTiles(data);
    CoverWithRest(head, data, HeadEnd(data), head[|head| - 1].key + 1);
  }

  /** After SOI in a stream of at least 21 bytes: the eleven fields sit at their fixed offsets and sizes. */
  lemma SoiLayout(data: seq<Byte>)
    requires IsJpeg(data) && |data| >= 21
    ensures Head(data) == [Entry(0, data[0..2], Some("Header"), None, NoValue)]
      + [Plain(2, data[2..4]), Plain(4, data[4..6]), Plain(6, data[6..11]), Plain(11, data[11..13])]
      + [Plain(13, data[13..14]), Plain(14, data[14..16]), Plain(16, data[16..18])]
      + [Plain(18, data[18..19]), Plain(19, data[19..20]), Plain(20, data[20..21])]
    ensures Layout(data) == Head(data) + if |data| > 21 then [Plain(21, data[21..])] else []
  {
  }

  /** Without SOI: one node holding the (up to) two bytes read, then the rest keyed at 1. */
  lemma NoSoiLayout(data: seq<Byte>)
    requires !IsJpeg(data)
    ensures Layout(data) == [Plain(0, data[..Clamp(|data|, 2)])] + if |data| > 2 then [Plain(1, data[2..])] else []
  {
  }

  class JpegParser {
    const file: Stream

    constructor (file: Stream)
      ensures this.file == file
    {
      this.file := file;
    }

    static method Recognizes(file: Stream) returns (b: bool)
      requires file.Valid()
      modifies file`pos
      ensures file.Valid()
      ensures b == IsJpeg(file.data)
    {
      file.Seek(0);
      var header := file.Read(2);
      b := header == SOI;
    }

    /**
     * `root.add_child(self.file.tell(), Node(self.file.read(len), info))` with
     * the cursor at `off`, or at the end of a stream shorter than `off`.
     */
    method AddField(root: Node, ghost off: nat, len: nat, info: string) returns (node: Node)
      requires file.Valid() && file.pos == Clamp(|file.data|, off) && root.Valid()
      modifies file`pos, root`children, root`log
      ensures file.Valid() && file.pos == Clamp(|file.data|, off + len)
      ensures fresh(node) && node.info == info
      ensures root.children == old(root.children) + [(old(file.pos), node)]
      ensures root.Valid() && root.log == old(root.log) + [Field(file.data, off, len)]
    {
      var at := file.Tell();
      var b := file.Read(len);
      node := new Node(b, info, None, None, NoValue);
      node := root.AddChild(at, node);
    }

    /** The APP0 length field, described with its bytes and their big-endian value. */
    method AddLength(root: Node) returns (node: Node)
      requires file.Valid() && file.pos == Clamp(|file.data|, 4) && root.Valid()
      modifies file`pos, root`children, root`log
      ensures file.Valid() && file.pos == Clamp(|file.data|, 6)
      ensures fresh(node) && node.info == "Length of APP0 section: \n\n" + BytesRepr(node.data) + "\t = \t" + NatToString(BE(node.data))
      ensures root.children == old(root.children) + [(old(file.pos), node)]
      ensures root.Valid() && root.log == old(root.log) + [Field(file.data, 4, 2)]
    {
      var at := file.Tell();
      var b := file.Read(2);
      node := new Node(b, "Length of APP0 section: \n\n" + BytesRepr(b) + "\t = \t" + NatToString(BE(b)), None, None, NoValue);
      node := root.AddChild(at, node);
    }

    /** The APP0 segment, read field by field after the SOI marker. */
    method ParseApp0(root: Node)
      requires file.Valid() && IsJpeg(file.data) && file.pos == 2
      requires root.Valid() && root.log == [Entry(0, SOI, Some("Header"), None, NoValue)]
      modifies file`pos, root`children, root`log
      ensures file.Valid() && file.pos == HeadEnd(file.data)
      ensures root.Valid() && root.log == Head(file.data)
      ensures root.children[1].1.info == "APP0 marker"
      ensures "Length of APP0 section: " <= root.children[2].1.info
    {
      var n := AddField(root, 2, 2, "APP0 marker");
      n := AddLength(root);
      ParseApp0Rest(root);
    }

    /** The APP0 fields after the length: identifier, version, units, densities and thumbnail. */
    method ParseApp0Rest(root: Node)
      requires file.Valid() && file.pos == Clamp(|file.data|, 6) && root.Valid()
      modifies file`pos, root`children, root`log
      ensures file.Valid() && file.pos == Clamp(|file.data|, 21)
      ensures root.Valid()
      ensures root.log == old(root.log) + [Field(file.data, 6, 5)] + [Field(file.data, 11, 2)] + [Field(file.data, 13, 1)]
        + [Field(file.data, 14, 2)] + [Field(file.data, 16, 2)] + [Field(file.data, 18, 1)] + [Field(file.data, 19, 1)]
        + [Field(file.data, 20, 1)]
      ensures old(root.children) <= root.children
    {
      var n := AddField(root, 6, 5, "Identifier");
      n := AddField(root, 11, 2, "Version");
      n := AddField(root, 13, 1, "Density units");
      n := AddField(root, 14, 2, "X density");
      n := AddField(root, 16, 2, "Y density");
      n := AddField(root, 18, 1, "Thumbnail width");
      n := AddField(root, 19, 1, "Thumbnail height");
      n := AddField(root, 20, 1, "Thumbnail data");
    }

    /** The rest of the stream, if any, as one node keyed one past the last child's key. */
    method AddRemainder(root: Node, ghost head: seq<Entry>)
      requires file.Valid() && root.Valid() && root.log == head && head != []
      modifies file`pos, root`children, root`log
      ensures file.Valid() && file.pos == |file.data|
      ensures root.Valid()
      ensures root.log == head + if old(file.pos) < |file.data| then [Entry(head[|head| - 1].key + 1, file.data[old(file.pos)..], None, None, NoValue)] else []
    {
      var remaining := file.Read(-1);
      if remaining != [] {
        var lastKey := root.children[|root.children| - 1].0;
        EntriesAt(root.children, |root.children| - 1);
        assert lastKey == head[|head| - 1].key;
        var n := new Node(remaining, "Unparsed remainder", None, None, NoValue);
        n := root.AddChild(lastKey + 1, n);
        assert Snapshot(lastKey + 1, n) == Entry(head[|head| - 1].key + 1, file.data[old(file.pos)..], None, None, NoValue);
      } else {
        assert head + [] == head;
      }
    }

    method Parse() returns (root: Node)
      requires file.Valid()
      modifies file`pos
      ensures fresh(root) && root.data == [] && root.info == "JPEG file"
      ensures root.Valid() && root.log == Layout(file.data)
    {
      ghost var data := file.data;
      file.Seek(0);
      root := new Node([], "JPEG file", None, None, NoValue);
      var location := file.Tell();
      var headerCheck := file.Read(2);
      assert (headerCheck == SOI) == IsJpeg(data);
      var n: Node;
      if headerCheck == SOI {
        n := new Node(headerCheck, "Start of Image marker (SOI).", Some("Header"), None, NoValue);
        n := root.AddChild(location, n);
        ParseApp0(root);
      } else {
        n := new Node(headerCheck, "Unknown marker", None, None, NoValue);
        n := root.AddChild(location, n);
        assert root.log == Head(data);
      }
      AddRemainder(root, Head(data));
    }
  }
}
