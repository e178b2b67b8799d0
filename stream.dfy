/**
 * The byte source and byte sink the codec works on: Rust's `Read` and
 * `Write` traits with the byteorder extensions, reduced to an in-memory byte
 * string with a cursor and an append-only buffer. Every read that runs past
 * the end of the input fails, and fails the same way (Rust's `io::Error`
 * collapsed to one case).
 */
module Stream {
  import opened Bytes
  import opened Results

  /** One byte at `pos` (`read_u8`). */
  function ReadU8At(data: seq<u8>, pos: nat): (r: Option<Decoded<u8>>)
    ensures r.Some? <==> pos < |data|
    ensures r.Some? ==> r.value.value == data[pos] && r.value.next == pos + 1
  {
    if pos < |data| then Some(Decoded(data[pos], pos + 1)) else None
  }

  /** Exactly `n` bytes at `pos` (`read_exact` into an `n`-byte buffer). */
  function EatAt(data: seq<u8>, pos: nat, n: nat): (r: Option<Decoded<seq<u8>>>)
    ensures r.Some? <==> pos + n <= |data|
    ensures r.Some? ==> r.value.value == data[pos..pos + n] && r.value.next == pos + n
  {
    if pos + n <= |data| then Some(Decoded(data[pos..pos + n], pos + n)) else None
  }

  /** A big-endian unsigned value of `w` bytes (`read_u8`, `read_u16::<BigEndian>`). */
  function ReadUnsignedAt(data: seq<u8>, pos: nat, w: nat): (r: Option<Decoded<nat>>)
    ensures r.Some? <==> pos + w <= |data|
    ensures r.Some? ==> r.value.value < Pow256(w) && r.value.next == pos + w
  {
    var bs :- EatAt(data, pos, w);
    Some(Decoded(FromBE(bs.value), bs.next))
  }

  /** A big-endian two's-complement value of `w` bytes (`read_i8`, `read_i32::<BigEndian>`, ...). */
  function ReadSignedAt(data: seq<u8>, pos: nat, w: nat): (r: Option<Decoded<int>>)
    requires 1 <= w
    ensures r.Some? <==> pos + w <= |data|
    ensures r.Some? ==> -(Pow256(w) / 2) <= r.value.value < Pow256(w) / 2 && r.value.next == pos + w
  {
    var u :- ReadUnsignedAt(data, pos, w);
    Some(Decoded(ToSigned(u.value, w), u.next))
  }

  /** The number of iterations of `for _ in 0..n` with an `i32` bound. */
  function Iterations(n: int): nat {
    if n < 0 then 0 else n
  }

  /** The `i32` length prefix of an array or list at `pos`. */
  function LengthAt(data: seq<u8>, pos: nat): int
    requires pos + 4 <= |data|
  {
    ToSigned(FromBE(data[pos..pos + 4]), 4)
  }

  /** The `u16` length prefix of a string at `pos`. */
  function StringLengthAt(data: seq<u8>, pos: nat): nat
    requires pos + 2 <= |data|
  {
    FromBE(data[pos..pos + 2])
  }

  /** `pattern` occurs in `data` at `pos`. */
  predicate IsAt(data: seq<u8>, pos: nat, pattern: seq<u8>) {
    pos + |pattern| <= |data| && data[pos..pos + |pattern|] == pattern
  }

  /** An occurrence of `a + b` is an occurrence of `a` followed by one of `b`. */
  lemma IsAtSplit(data: seq<u8>, pos: nat, a: seq<u8>, b: seq<u8>)
    requires IsAt(data, pos, a + b)
    ensures IsAt(data, pos, a) && IsAt(data, pos + |a|, b)
  {
    assert data[pos..pos + |a|] == (a + b)[..|a|];
    assert data[pos + |a|..pos + |a| + |b|] == (a + b)[|a|..];
  }

  /** A signed read where the bytes are present: the two's-complement value of the next `w` bytes. */
  lemma ReadSignedBytes(data: seq<u8>, pos: nat, w: nat)
    requires 1 <= w && pos + w <= |data|
    ensures ReadSignedAt(data, pos, w) == Some(Decoded(ToSigned(FromBE(data[pos..pos + w]), w), pos + w))
  {
  }

  /** Reading back a written unsigned value. */
  lemma ReadUnsignedOfEncoding(data: seq<u8>, pos: nat, n: int, w: nat)
    requires IsAt(data, pos, ToBE(n, w))
    ensures ReadUnsignedAt(data, pos, w) == Some(Decoded(n % Pow256(w), pos + w))
  {
    FromToBE(n, w);
  }

  /** Reading back a written signed value that fits its width. */
  lemma ReadSignedOfEncoding(data: seq<u8>, pos: nat, v: int, w: nat)
    requires 1 <= w && -(Pow256(w) / 2) <= v < Pow256(w) / 2
    requires IsAt(data, pos, ToBE(v, w))
    ensures ReadSignedAt(data, pos, w) == Some(Decoded(v, pos + w))
  {
    SignedRoundTrip(v, w);
  }

  /** An input stream: the bytes and a cursor that only moves forward. */
  class Source {
    const data: seq<u8>
    var pos: nat

    ghost predicate Valid()
      reads this
    {
      pos <= |data|
    }

    constructor (data: seq<u8>)
      ensures Valid() && this.data == data && pos == 0
    {
      this.data := data;
      pos := 0;
    }

    method ReadU8() returns (r: Option<u8>)
      requires Valid()
      modifies this
      ensures Valid()
      ensures LocatedOption(r, pos) == ReadU8At(data, old(pos))
      ensures r.None? ==> pos == old(pos)
    {
      if pos < |data| {
        r := Some(data[pos]);
        pos := pos + 1;
      } else {
        r := None;
      }
    }

    method Eat(n: nat) returns (r: Option<seq<u8>>)
      requires Valid()
      modifies this
      ensures Valid()
      ensures LocatedOption(r, pos) == EatAt(data, old(pos), n)
    {
      if pos + n <= |data| {
        r := Some(data[pos..pos + n]);
        pos := pos + n;
      } else {
        r := None;
      }
    }

    method ReadUnsigned(w: nat) returns (r: Option<nat>)
      requires Valid()
      modifies this
      ensures Valid()
      ensures LocatedOption(r, pos) == ReadUnsignedAt(data, old(pos), w)
    {
      var bs := Eat(w);
      r := if bs.Some? then Some(FromBE(bs.value)) else None;
    }

    method ReadSigned(w: nat) returns (r: Option<int>)
      requires Valid() && 1 <= w
      modifies this
      ensures Valid()
      ensures LocatedOption(r, pos) == ReadSignedAt(data, old(pos), w)
    {
      var u := ReadUnsigned(w);
      r := if u.Some? then Some(ToSigned(u.value, w)) else None;
    }
  }

  /** An output stream that accepts every byte it is given. */
  class Sink {
    var written: seq<u8>

    constructor ()
      ensures written == []
    {
      written := [];
    }

    /** `write_all`: append the bytes. */
    method WriteBytes(bs: seq<u8>)
      modifies this
      ensures written == old(written) + bs
    {
      written := written + bs;
    }

    /** `write_u8`: one byte. */
    method WriteU8(b: u8)
      modifies this
      ensures written == old(written) + [b]
    {
      written := written + [b];
    }

    /** `write_i8`, `write_i16::<BigEndian>`, ...: the low `w` bytes of `n`, big-endian. */
    method WriteBE(n: int, w: nat)
      modifies this
      ensures written == old(written) + ToBE(n, w)
    {
      written := written + ToBE(n, w);
    }
  }
}
