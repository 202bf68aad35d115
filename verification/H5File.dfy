/** The file as the reader sees it: a byte string reached only through positioned reads. */
module H5File {
  import opened Words
  import opened LittleEndian

  /** File contents, and the widths of offsets and lengths taken from the superblock. */
  datatype File = File(bytes: seq<byte>, osize: nat, lsize: nat) {
    /** A file offset is a signed 64-bit number; wider offset or length fields are refused on open. */
    predicate Valid() {
      |bytes| < 0x8000_0000_0000_0000 && osize <= 8 && lsize <= 8
    }

    /** Positioned read: all `n` bytes, or nothing. */
    function Read(off: nat, n: nat): (r: Option<seq<byte>>)
      ensures r.Some? ==> |r.value| == n
      ensures r.Some? && n > 0 ==> off + n <= |bytes|
    {
      if n == 0 then Some([])
      else if off + n <= |bytes| then Some(bytes[off..off + n])
      else None
    }

    /** The undefined address is all ones in the offset width. */
    predicate Undefined(a: nat) {
      a == Pow256(osize) - 1
    }
  }

  const TREE: seq<byte> := [84, 82, 69, 69]
  const SNOD: seq<byte> := [83, 78, 79, 68]
  const HEAP: seq<byte> := [72, 69, 65, 80]
}
