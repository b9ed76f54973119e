/**
 * The seekable binary stream every decoder reads: a byte sequence and a cursor.
 * `Read` follows Python's `BufferedReader.read(n)`: it returns the bytes from
 * the cursor up to n of them, fewer at the end of the file, and everything that
 * is left when n is negative; the cursor moves past what was returned.
 */
module Streams {
  import opened Bytes

  /** Where the cursor stands after `read(n)` from `pos` in a stream of `size` bytes. */
  function ReadEnd(size: nat, pos: nat, n: int): (e: nat)
    requires pos <= size
    ensures pos <= e <= size
    ensures n < 0 ==> e == size
    ensures 0 <= n ==> e == if pos + n <= size then pos + n else size
  {
    if n < 0 || pos + n > size then size else pos + n
  }

  /** The cursor after reading sequentially from the start up to offset `off`. */
  function Clamp(size: nat, off: nat): (r: nat)
    ensures r <= size && r <= off
    ensures r == off || r == size
  {
    if off <= size then off else size
  }

  /** The bytes `read(n)` returns from `pos`. */
  function ReadAt(data: seq<Byte>, pos: nat, n: int): (r: seq<Byte>)
    requires pos <= |data|
    ensures r == data[pos..ReadEnd(|data|, pos, n)]
    ensures 0 <= n ==> |r| <= n
  {
    data[pos..ReadEnd(|data|, pos, n)]
  }

  class Stream {
    const data: seq<Byte>
    var pos: nat

    ghost predicate Valid()
      reads this
    {
      pos <= |data|
    }

    constructor (data: seq<Byte>)
      ensures this.data == data && pos == 0 && Valid()
    {
      this.data := data;
      pos := 0;
    }

    /** `file.read(n)`. */
    method Read(n: int) returns (r: seq<Byte>)
      requires Valid()
      modifies `pos
      ensures Valid()
      ensures pos == ReadEnd(|data|, old(pos), n)
      ensures r == data[old(pos)..pos]
    {
      r := ReadAt(data, pos, n);
      pos := ReadEnd(|data|, pos, n);
    }

    /** `file.seek(p)`; Python refuses a negative position. */
    method Seek(p: int)
      requires 0 <= p <= |data|
      modifies `pos
      ensures Valid() && pos == p
    {
      pos := p;
    }

    /** `file.tell()`. */
    function Tell(): nat
      reads this
    {
      pos
    }
  }
}
