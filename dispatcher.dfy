/**
 * The entry point: choosing a decoder by probing the stream with each parser's
 * `recognizes` in a fixed priority order, the `validate` check every parser
 * shares, and the `find_node` lookup that turns a missing key into None.
 */
module Dispatcher {
  import opened Bytes
  import opened Streams
  import opened Common
  import SqliteFormat
  import Sqlite
  import Jpeg
  import MftFormat
  import Mft
  import LnkFormat
  import Lnk

  /** The four decoders, named in the order `get_file_parser` tries them. */
  datatype Format = SqliteFile | JpegFile | MftFile | LnkFile

  const Priority: seq<Format> := [SqliteFile, JpegFile, MftFile, LnkFile]

  /** What each parser's `recognizes` tests about the bytes from offset 0. */
  predicate Recognized(k: Format, data: seq<Byte>)
  {
    match k
    case SqliteFile => SqliteFormat.IsSqlite(data)
    case JpegFile => Jpeg.IsJpeg(data)
    case MftFile => MftFormat.IsMft(data)
    case LnkFile => LnkFormat.IsLnk(data)
  }

  /** The first format in priority order whose test the bytes pass, if any. */
  function Detect(data: seq<Byte>): (r: Option<Format>)
    ensures r.Some? ==> Recognized(r.value, data)
    ensures r.None? ==> forall k :: !Recognized(k, data)
  {
    if Recognized(SqliteFile, data) then Some(SqliteFile)
    else if Recognized(JpegFile, data) then Some(JpegFile)
    else if Recognized(MftFile, data) then Some(MftFile)
    else if Recognized(LnkFile, data) then Some(LnkFile)
    else None
  }

  /** The first byte each format's magic begins with: 'S', 0xFF, 'F' and 0x4C. */
  function Lead(k: Format): Byte
  {
    match k
    case SqliteFile => 0x53
    case JpegFile => 0xFF
    case MftFile => 0x46
    case LnkFile => 0x4C
  }

  /** Recognising a format fixes the first byte of the stream. */
  lemma RecognizedLead(k: Format, data: seq<Byte>)
    requires Recognized(k, data)
    ensures |data| > 0 && data[0] == Lead(k)
  {
    match k
    case SqliteFile =>
      assert data[..16][0] == data[0];
    case JpegFile =>
    case MftFile =>
      assert data[..4][0] == data[0];
    case LnkFile =>
  }

  /**
   * The magic numbers begin with four different bytes, so no stream passes two
   * tests: the priority order never decides between two candidates.
   */
  lemma AtMostOneRecognized(data: seq<Byte>, k: Format, l: Format)
    requires Recognized(k, data) && Recognized(l, data)
    ensures k == l
  {
    RecognizedLead(k, data);
    RecognizedLead(l, data);
  }

  /** The order of the list does not matter: the chosen format is the one the bytes pass. */
  lemma DetectExact(data: seq<Byte>, k: Format)
    ensures Detect(data) == Some(k) <==> Recognized(k, data)
  {
    if Recognized(k, data) {
      AtMostOneRecognized(data, Detect(data).value, k);
    }
  }

  /** The parser `get_file_parser` builds, over the stream it was given. */
  datatype Chosen =
    | SqliteChosen(sqlite: Sqlite.SqliteParser)
    | JpegChosen(jpeg: Jpeg.JpegParser)
    | MftChosen(mft: Mft.MftParser)
    | LnkChosen(lnk: Lnk.LnkParser)

  function FormatOf(c: Chosen): Format
  {
    match c
    case SqliteChosen(_) => SqliteFile
    case JpegChosen(_) => JpegFile
    case MftChosen(_) => MftFile
    case LnkChosen(_) => LnkFile
  }

  /** The parser object inside the choice. */
  function ParserOf(c: Chosen): object
  {
    match c
    case SqliteChosen(p) => p
    case JpegChosen(p) => p
    case MftChosen(p) => p
    case LnkChosen(p) => p
  }

  /** The stream the chosen parser reads. */
  function StreamOf(c: Chosen): Stream
  {
    match c
    case SqliteChosen(p) => p.file
    case JpegChosen(p) => p.file
    case MftChosen(p) => p.file
    case LnkChosen(p) => p.file
  }

  /** Raised when no parser recognises the stream. */
  datatype UnknownFileType = UnknownFileType

  /** Raised by `validate` when the stream fails the parser's own test. */
  datatype InvalidFile = InvalidFile(format: Format)

  /** `Parser.recognizes(file)` for the parser of format `k`: seeks to 0 and compares the magic. */
  method Recognizes(k: Format, file: Stream) returns (b: bool)
    requires file.Valid()
    modifies file`pos
    ensures file.Valid()
    ensures b == Recognized(k, file.data)
  {
    match k
    case SqliteFile => b := Sqlite.SqliteParser.Recognizes(file);
    case JpegFile => b := Jpeg.JpegParser.Recognizes(file);
    case MftFile => b := Mft.MftParser.Recognizes(file);
    case LnkFile => b := Lnk.LnkParser.Recognizes(file);
  }

  /** A new parser of format `k` over `file`. */
  method Build(k: Format, file: Stream) returns (c: Chosen)
    ensures FormatOf(c) == k
    ensures fresh(ParserOf(c)) && StreamOf(c) == file
  {
    match k
    case SqliteFile =>
      var p := new Sqlite.SqliteParser(file);
      c := SqliteChosen(p);
    case JpegFile =>
      var p := new Jpeg.JpegParser(file);
      c := JpegChosen(p);
    case MftFile =>
      var p := new Mft.MftParser(file);
      c := MftChosen(p);
    case LnkFile =>
      var p := new Lnk.LnkParser(file);
      c := LnkChosen(p);
  }

  /**
   * `get_file_parser`: try the parsers in priority order and build the first
   * that recognises the stream; none recognising it raises.
   */
  method GetFileParser(file: Stream) returns (r: Result<Chosen, UnknownFileType>)
    requires file.Valid()
    modifies file`pos
    ensures file.Valid()
    ensures r.Err? <==> Detect(file.data).None?
    ensures r.Ok? ==> Detect(file.data) == Some(FormatOf(r.value))
    ensures r.Ok? ==> fresh(ParserOf(r.value)) && StreamOf(r.value) == file
  {
    for i := 0 to |Priority|
      invariant file.Valid()
      invariant forall j :: 0 <= j < i ==> !Recognized(Priority[j], file.data)
    {
      var found := Recognizes(Priority[i], file);
      if found {
        DetectExact(file.data, Priority[i]);
        var c := Build(Priority[i], file);
        return Ok(c);
      }
    }
    assert !Recognized(Priority[0], file.data) && !Recognized(Priority[1], file.data);
    assert !Recognized(Priority[2], file.data) && !Recognized(Priority[3], file.data);
    return Err(UnknownFileType);
  }

  /** `validate`: the stream must pass the parser's own `recognizes`, or the call raises. */
  method Validate(k: Format, file: Stream) returns (r: Result<(), InvalidFile>)
    requires file.Valid()
    modifies file`pos
    ensures file.Valid()
    ensures r.Ok? <==> Recognized(k, file.data)
    ensures r.Err? ==> r.error == InvalidFile(k)
  {
    var b := Recognizes(k, file);
    if !b {
      return Err(InvalidFile(k));
    }
    return Ok(());
  }

  /** `find_node`: the first child with the key, or None where `search_child` raises. */
  method FindNode(node: Node, key: int) returns (r: Option<Node>)
    ensures r.Some? <==> HasKey(node.children, key)
    ensures r.Some? ==> exists i :: FirstWithKey(node.children, key, i) && r.value == node.children[i].1
  {
    var found := node.SearchChild(key);
    match found
    case Ok(n) => r := Some(n);
    case Err(_) => r := None;
  }
}
