/**
 * The decoded tree shared by every parser: a `Node` holds the raw bytes of one
 * labelled field and an ordered, append-only list of `(offset, child)` pairs.
 */
module Common {
  import opened Bytes
  import opened Streams

  datatype Option<T> = None | Some(value: T)

  /** Python text decodings the tree keeps undecoded (`errors='ignore'`). */
  datatype Encoding = Utf8 | Utf16Le

  /** Why a FILETIME was rendered as a message instead of a datetime. */
  datatype TimeFailure =
    | StartsWithSpace   // the validity check refused bytes starting with 0x20
    | OutOfRange        // ticks div 10 exceeds the representable microseconds
    | AddOverflow       // adding the delta to 1601-01-01 overflowed and was caught

  /** The `table_value` shown for a node in the table view. */
  datatype TableValue =
    | NoValue
    | Number(n: int)
    | Text(s: string)
    | Raw(b: seq<Byte>)
    | Decoded(b: seq<Byte>, enc: Encoding)
    | Moment(micros: nat)    // the datetime 1601-01-01 plus this many microseconds
    | TimeText(why: TimeFailure, raw: seq<Byte>)

  /**
   * What one child pair records: its key and its node's unchanging fields.
   * A `color` of None stands for the random colour chosen at construction.
   */
  datatype Entry = Entry(key: int, data: seq<Byte>, name: Option<string>, color: Option<string>, value: TableValue)

  /** A record with no name, no colour and no table value. */
  function Plain(key: int, data: seq<Byte>): Entry
  {
    Entry(key, data, None, None, NoValue)
  }

  /** `search_child` found no child with this key (Python raises ValueError). */
  datatype NoChild = NoChild(key: int)

  datatype Result<T, E> = Ok(value: T) | Err(error: E)

  class Node {
    const data: seq<Byte>
    var info: string
    const name: Option<string>
    const color: Option<string>
    const tableValue: TableValue
    var children: seq<(int, Node)>
    /** The records of `children`, in order. */
    ghost var log: seq<Entry>

    ghost predicate Valid()
      reads this
    {
      log == Entries(children)
    }

    /** An empty or missing colour is replaced by a random one (None here). */
    constructor (data: seq<Byte>, info: string, name: Option<string>, color: Option<string>, tableValue: TableValue)
      ensures this.data == data && this.info == info && this.name == name && this.tableValue == tableValue
      ensures this.color == (if color.Some? && color.value != "" then color else None)
      ensures children == [] && Valid() && log == []
    {
      this.data := data;
      this.info := info;
      this.name := name;
      this.color := if color.Some? && color.value != "" then color else None;
      this.tableValue := tableValue;
      children := [];
      log := [];
    }

    /** Appends `(key, node)` whatever the key; keys may repeat and need not be ordered. */
    method AddChild(key: int, node: Node) returns (r: Node)
      requires Valid()
      modifies this`children, this`log
      ensures children == old(children) + [(key, node)]
      ensures Valid() && log == old(log) + [Snapshot(key, node)]
      ensures r == node
    {
      children := children + [(key, node)];
      log := log + [Snapshot(key, node)];
      EntriesAppend(old(children), (key, node));
      r := node;
    }

    method AddMoreDescriptionContent(more: string)
      modifies this`info
      ensures info == old(info) + more
      ensures children == old(children) && log == old(log)
    {
      info := info + more;
    }

    /** The node of the first child, in insertion order, whose key is `key`. */
    method SearchChild(key: int) returns (r: Result<Node, NoChild>)
      ensures r.Ok? <==> HasKey(children, key)
      ensures r.Ok? ==> exists i :: FirstWithKey(children, key, i) && r.value == children[i].1
      ensures r.Err? ==> r.error == NoChild(key)
    {
      for i := 0 to |children|
        invariant forall j :: 0 <= j < i ==> children[j].0 != key
      {
        if children[i].0 == key {
          assert FirstWithKey(children, key, i);
          return Ok(children[i].1);
        }
      }
      return Err(NoChild(key));
    }
  }

  predicate HasKey(cs: seq<(int, Node)>, key: int)
  {
    exists i :: 0 <= i < |cs| && cs[i].0 == key
  }

  /** Position i holds the first child with this key. */
  predicate FirstWithKey(cs: seq<(int, Node)>, key: int, i: int)
  {
    0 <= i < |cs| && cs[i].0 == key && forall j :: 0 <= j < i ==> cs[j].0 != key
  }

  function Snapshot(key: int, n: Node): Entry
  {
    Entry(key, n.data, n.name, n.color, n.tableValue)
  }

  /** The records of a child list, in order. */
  function Entries(cs: seq<(int, Node)>): (r: seq<Entry>)
    ensures |r| == |cs|
  {
    if cs == [] then [] else Entries(cs[..|cs| - 1]) + [Snapshot(cs[|cs| - 1].0, cs[|cs| - 1].1)]
  }

  lemma {:induction false} EntriesAt(cs: seq<(int, Node)>, i: nat)
    requires i < |cs|
    ensures Entries(cs)[i] == Snapshot(cs[i].0, cs[i].1)
  {
    if i < |cs| - 1 {
      EntriesAt(cs[..|cs| - 1], i);
    }
  }

  lemma EntriesAppend(cs: seq<(int, Node)>, c: (int, Node))
    ensures Entries(cs + [c]) == Entries(cs) + [Snapshot(c.0, c.1)]
  {
    assert (cs + [c])[..|cs|] == cs;
  }

  /** A prefix one longer is the prefix with the next element appended. */
  lemma TakeOne<T>(s: seq<T>, k: nat)
    requires k < |s|
    ensures s[..k + 1] == s[..k] + [s[k]]
  {
  }

  /** The bytes of three records in a row. */
  lemma ConcatThree(a: Entry, b: Entry, c: Entry)
    ensures Concat([a, b, c]) == a.data + b.data + c.data
  {
    assert [a][..0] == [];
    assert Concat([a]) == a.data;
    assert [a, b][..1] == [a];
    assert Concat([a, b]) == a.data + b.data;
    assert [a, b, c][..2] == [a, b];
  }

  /** The bytes of four records in a row. */
  lemma ConcatFour(a: Entry, b: Entry, c: Entry, d: Entry)
    ensures Concat([a, b, c, d]) == a.data + b.data + c.data + d.data
  {
    assert [a, b, c, d][..3] == [a, b, c];
    ConcatThree(a, b, c);
  }

  /** Two adjacent slices join into one. */
  lemma JoinSlices<T>(s: seq<T>, a: nat, b: nat, c: nat)
    requires a <= b <= c <= |s|
    ensures s[a..b] + s[b..c] == s[a..c]
  {
  }

  /** Appending two runs one after the other is appending their concatenation. */
  lemma AppendTwo(l: seq<Entry>, a: seq<Entry>, b: seq<Entry>)
    ensures l + a + b == l + (a + b)
  {
  }

  /** Appending two records and then a run is appending the run headed by the pair. */
  lemma PushTwo(l: seq<Entry>, x: Entry, y: Entry, rest: seq<Entry>)
    ensures l + [x] + [y] + rest == l + ([x, y] + rest)
  {
  }

  /** Appending five runs one after the other is appending their concatenation. */
  lemma AppendFive(l: seq<Entry>, a: seq<Entry>, b: seq<Entry>, c: seq<Entry>, d: seq<Entry>, e: seq<Entry>)
    ensures l + a + b + c + d + e == l + (a + b + c + d + e)
  {
  }

  /** Appending three runs one after the other is appending their concatenation. */
  lemma AppendThree(l: seq<Entry>, a: seq<Entry>, b: seq<Entry>, c: seq<Entry>)
    ensures l + a + b + c == l + (a + b + c)
  {
  }

  /** The bytes of a run of records, concatenated in order. */
  function Concat(es: seq<Entry>): (r: seq<Byte>)
  {
    if es == [] then [] else Concat(es[..|es| - 1]) + es[|es| - 1].data
  }

  lemma {:induction false} ConcatAppend(a: seq<Entry>, b: seq<Entry>)
    ensures Concat(a + b) == Concat(a) + Concat(b)
  {
    if b != [] {
      assert (a + b)[..|a + b| - 1] == a + b[..|b| - 1];
      ConcatAppend(a, b[..|b| - 1]);
    } else {
      assert a + b == a;
    }
  }

  /**
   * A field of `len` bytes read at offset `off` of a stream read sequentially
   * from the start, keyed at the cursor before the read (both clamped to the end).
   */
  function Field(data: seq<Byte>, off: nat, len: nat): (e: Entry)
    ensures e.key <= off && |e.data| <= len
    ensures off + len <= |data| ==> e.key == off && e.data == data[off..off + len]
  {
    var at := Clamp(|data|, off);
    Plain(at, data[at..Clamp(|data|, off + len)])
  }

  /** A field read right after a run of records that covers the stream up to its offset extends the cover. */
  lemma ConcatField(es: seq<Entry>, data: seq<Byte>, off: nat, len: nat)
    requires Concat(es) == data[..Clamp(|data|, off)]
    ensures Concat(es + [Field(data, off, len)]) == data[..Clamp(|data|, off + len)]
  {
    assert (es + [Field(data, off, len)])[..|es|] == es;
    assert data[..Clamp(|data|, off)] + data[Clamp(|data|, off)..Clamp(|data|, off + len)] == data[..Clamp(|data|, off + len)];
  }

  /** The offset of row i of a table of lengths read back to back: the sum of the lengths before it. */
  function Offset(lens: seq<nat>, i: nat): nat
    requires i <= |lens|
  {
    if i == 0 then 0 else Offset(lens, i - 1) + lens[i - 1]
  }

  /**
   * `add_child(tell() - len, Node(read(len), ...))` with the cursor at `off`,
   * or at the end of a stream shorter than `off`: the key is the cursor after
   * the read minus the length asked for, which is `off` only when all of the
   * bytes were there to be read.
   */
  function Piece(data: seq<Byte>, off: nat, len: nat, name: Option<string>, color: Option<string>, value: TableValue): (e: Entry)
    ensures e.data == data[Clamp(|data|, off)..Clamp(|data|, off + len)]
    ensures off + len <= |data| ==> e.key == off && |e.data| == len
    ensures e.name == name && e.color == color && e.value == value
  {
    var end := Clamp(|data|, off + len);
    Entry(end - len, data[Clamp(|data|, off)..end], name, color, value)
  }

  /**
   * `add_child(tell() - n, Node(read(n), ...))` with the cursor at `pos`, for
   * any n: a negative n reads to the end, and the key is then past the cursor.
   */
  function Taken(data: seq<Byte>, pos: nat, n: int, name: Option<string>, color: Option<string>): (e: Entry)
    requires pos <= |data|
    ensures e.data == ReadAt(data, pos, n) && e.key == pos + |e.data| - n
    ensures e.name == name && e.color == color && e.value == NoValue
  {
    var end := ReadEnd(|data|, pos, n);
    Entry(end - n, data[pos..end], name, color, NoValue)
  }
}
