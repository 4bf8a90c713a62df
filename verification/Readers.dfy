/**
  An io.Reader over a fixed byte string.  How many bytes a read yields is an arbitrary
  function of the position, and the last bytes may or may not come together with EOF: this
  covers every way of splitting the bytes.
 */
module Readers {
  import opened Bytes

  datatype Reader = Reader(data: seq<Byte>, pos: nat, split: nat -> nat, eager: bool) {
    predicate Valid() { pos <= |data| }

    function Rest(): seq<Byte>
      requires Valid()
    {
      data[pos..]
    }
  }

  /** A read into a buffer of `len` bytes: at least one byte, at most the buffer, never past the end. */
  function Count(r: Reader, len: nat): (n: nat)
    requires r.Valid() && r.pos < |r.data| && len > 0
    ensures 1 <= n <= len && r.pos + n <= |r.data|
  {
    var left := |r.data| - r.pos;
    var most := if len < left then len else left;
    var want := r.split(r.pos);
    if want == 0 then 1 else if want < most then want else most
  }

  /** The next reader state, the bytes read, and whether EOF was reported with them. */
  function Read(r: Reader, len: nat): (res: (Reader, seq<Byte>, bool))
    requires r.Valid() && len > 0
    ensures res.0.Valid() && res.0.data == r.data && res.0.eager == r.eager && res.0.split == r.split
    ensures |res.1| <= len && r.Rest() == res.1 + res.0.Rest()
    ensures (res.1 == [] ==> res.2) && (res.2 ==> res.0.Rest() == [])
  {
    if r.pos == |r.data| then (r, [], true) else
    var n := Count(r, len);
    (r.(pos := r.pos + n), r.data[r.pos..r.pos + n], r.eager && r.pos + n == |r.data|)
  }
}
