/**
 * The reader (`Tag::read`, `read_type`): a recursive descent over the byte
 * stream that dispatches on a type code. The `...At` functions say what is
 * decoded from `data` at a position and where the cursor ends; the methods
 * run the same loops over a `Source` and are proved to agree with them.
 */
module NbtRead {
  import opened Bytes
  import opened Results
  import opened Utf8
  import opened Stream
  import opened NbtTag

  /** A short read becomes `IoError`, as `?` does with an `io::Error`. */
  function Need<T>(o: Option<T>): (r: Result<T, TagError>)
    ensures r.Ok? <==> o.Some?
    ensures r.Ok? ==> r.value == o.value
    ensures r.Err? ==> r.error == IoError
  {
    match o
    case Some(v) => Ok(v)
    case None => Err(IoError)
  }

  /** `v` is a two's-complement value of `w` bytes. */
  predicate Fits(v: int, w: nat) {
    -(Pow256(w) / 2) <= v < Pow256(w) / 2
  }

  // ---------------------------------------------------------------------------
  // What is decoded

  /** `Tag::read` on a stream holding exactly `data`: a compound body from the first byte. */
  function ReadDocument(data: seq<u8>): Result<Tag, TagError> {
    var d :- ReadTypeAt(0x0A, data, 0);
    Ok(d.value)
  }

  /** `read_type(ty)` with the cursor at `pos`. */
  function ReadTypeAt(ty: u8, data: seq<u8>, pos: nat): (r: Result<Decoded<Tag>, TagError>)
    requires pos <= |data|
    ensures r.Ok? ==> pos <= r.value.next <= |data|
    decreases |data| - pos, 3, 0
  {
    Pow256Widths();
    match ty
    case 0x01 =>
      var v :- Need(ReadSignedAt(data, pos, 1));
      Ok(Decoded(ByteTag(v.value), v.next))
    case 0x02 =>
      var v :- Need(ReadSignedAt(data, pos, 2));
      Ok(Decoded(ShortTag(v.value), v.next))
    case 0x03 =>
      var v :- Need(ReadSignedAt(data, pos, 4));
      Ok(Decoded(IntTag(v.value), v.next))
    case 0x04 =>
      var v :- Need(ReadSignedAt(data, pos, 8));
      Ok(Decoded(LongTag(v.value), v.next))
    case 0x05 =>
      var v :- Need(ReadUnsignedAt(data, pos, 4));
      Ok(Decoded(FloatTag(v.value), v.next))
    case 0x06 =>
      var v :- Need(ReadUnsignedAt(data, pos, 8));
      Ok(Decoded(DoubleTag(v.value), v.next))
    case 0x07 =>
      var xs :- ReadArrayAt(data, pos, 1);
      Ok(Decoded(ByteArray(xs.value), xs.next))
    case 0x08 =>
      var s :- ReadStringAt(data, pos);
      Ok(Decoded(StringTag(s.value), s.next))
    case 0x09 =>
      var xs :- ReadListAt(data, pos);
      Ok(Decoded(ListTag(xs.value), xs.next))
    case 0x0A =>
      var m :- ReadEntriesAt(data, pos, map[]);
      Ok(Decoded(CompoundTag(m.value), m.next))
    case 0x0B =>
      var xs :- ReadArrayAt(data, pos, 4);
      Ok(Decoded(IntArray(xs.value), xs.next))
    case 0x0C =>
      var xs :- ReadArrayAt(data, pos, 8);
      Ok(Decoded(LongArray(xs.value), xs.next))
    case _ => Err(InvalidType)
  }

  /** A typed array: an `i32` length, then that many `w`-byte values (none for a negative length). */
  function ReadArrayAt(data: seq<u8>, pos: nat, w: nat): (r: Result<Decoded<seq<int>>, TagError>)
    requires pos <= |data| && 1 <= w
    ensures r.Ok? ==> pos + 4 <= r.value.next <= |data|
    ensures r.Ok? ==> forall i | 0 <= i < |r.value.value| :: Fits(r.value.value[i], w)
  {
    var n :- Need(ReadSignedAt(data, pos, 4));
    ReadElementsFacts(data, n.next, w, n.value, []);
    ReadElementsAt(data, n.next, w, n.value, [])
  }

  /** `for _ in 0..n { result.push(read()?) }` over `w`-byte values, continuing `acc`. */
  function ReadElementsAt(data: seq<u8>, pos: nat, w: nat, n: int, acc: seq<int>): (r: Result<Decoded<seq<int>>, TagError>)
    requires pos <= |data| && 1 <= w
    ensures r.Ok? ==> pos <= r.value.next <= |data|
    decreases if n < 0 then 0 else n
  {
    if n <= 0 then Ok(Decoded(acc, pos))
    else
      var x :- Need(ReadSignedAt(data, pos, w));
      ReadElementsAt(data, x.next, w, n - 1, acc + [x.value])
  }

  /**
   * The element loop keeps what it was given, adds one value per iteration
   * (none for a negative count), each a `w`-byte two's-complement value, and
   * fails only on a short read.
   */
  lemma {:induction false} ReadElementsFacts(data: seq<u8>, pos: nat, w: nat, n: int, acc: seq<int>)
    requires pos <= |data| && 1 <= w
    ensures var r := ReadElementsAt(data, pos, w, n, acc);
      && (r.Ok? ==> |r.value.value| == |acc| + (if n < 0 then 0 else n) && r.value.value[..|acc|] == acc)
      && (r.Ok? ==> forall i | |acc| <= i < |r.value.value| :: Fits(r.value.value[i], w))
      && (r.Err? ==> r.error == IoError)
    decreases if n < 0 then 0 else n
  {
    if 0 < n {
      var x := ReadSignedAt(data, pos, w);
      if x.Some? {
        ReadElementsFacts(data, x.value.next, w, n - 1, acc + [x.value.value]);
        var r := ReadElementsAt(data, x.value.next, w, n - 1, acc + [x.value.value]);
        if r.Ok? {
          assert r.value.value[..|acc|] == (acc + [x.value.value])[..|acc|];
        }
      }
    }
  }

  /** A string value: a `u16` length, that many bytes, decoded lossily (never an `InvalidUtf8`). */
  function ReadStringAt(data: seq<u8>, pos: nat): (r: Result<Decoded<seq<u8>>, TagError>)
    requires pos <= |data|
    ensures r.Ok? ==> pos + 2 <= r.value.next <= |data|
    ensures r.Err? ==> r.error == IoError
  {
    var n :- Need(ReadUnsignedAt(data, pos, 2));
    var bs :- Need(EatAt(data, n.next, n.value));
    Ok(Decoded(Lossy(bs.value), bs.next))
  }

  /** A list: an element type byte, an `i32` length, then that many payloads of that one type. */
  function ReadListAt(data: seq<u8>, pos: nat): (r: Result<Decoded<seq<Tag>>, TagError>)
    requires pos <= |data|
    ensures r.Ok? ==> pos + 5 <= r.value.next <= |data|
    decreases |data| - pos, 2, 0
  {
    var ty :- Need(ReadU8At(data, pos));
    var n :- Need(ReadSignedAt(data, ty.next, 4));
    ReadTagsAt(ty.value, n.value, data, n.next, [])
  }

  /** `for _ in 0..n { result.push(read_type(ty)?) }`, continuing `acc`. */
  function ReadTagsAt(ty: u8, n: int, data: seq<u8>, pos: nat, acc: seq<Tag>): (r: Result<Decoded<seq<Tag>>, TagError>)
    requires pos <= |data|
    ensures r.Ok? ==> pos <= r.value.next <= |data|
    decreases |data| - pos, 4, if n < 0 then 0 else n
  {
    if n <= 0 then Ok(Decoded(acc, pos))
    else
      var e :- ReadTypeAt(ty, data, pos);
      ReadTagsAt(ty, n - 1, data, e.next, acc + [e.value])
  }

  /**
   * The entry loop of a compound, continuing `acc`: stop at a `0x00` type
   * byte or when no type byte can be read; otherwise a `u16` name length, the
   * name (which must be UTF-8), the payload, and insert (a repeated name
   * replaces the earlier entry).
   */
  function ReadEntriesAt(data: seq<u8>, pos: nat, acc: map<seq<u8>, Tag>): (r: Result<Decoded<map<seq<u8>, Tag>>, TagError>)
    requires pos <= |data|
    ensures r.Ok? ==> pos <= r.value.next <= |data|
    decreases |data| - pos, 1, 0
  {
    var b := ReadU8At(data, pos);
    if b.None? || b.value.value == 0x00 then
      Ok(Decoded(acc, if b.Some? then b.value.next else pos))
    else
      var n :- Need(ReadUnsignedAt(data, b.value.next, 2));
      var name :- Need(EatAt(data, n.next, n.value));
      if !IsUtf8(name.value) then Err(InvalidUtf8)
      else
        var v :- ReadTypeAt(b.value.value, data, name.next);
        ReadEntriesAt(data, v.next, acc[name.value := v.value])
  }

  // ---------------------------------------------------------------------------
  // One step of each loop, stated on its own so that proofs about whole
  // encodings can chain them

  lemma ReadElementsStep(data: seq<u8>, pos: nat, w: nat, n: int, acc: seq<int>, x: int)
    requires pos + w <= |data| && 1 <= w && 0 < n
    requires ReadSignedAt(data, pos, w) == Some(Decoded(x, pos + w))
    ensures ReadElementsAt(data, pos, w, n, acc) == ReadElementsAt(data, pos + w, w, n - 1, acc + [x])
  {
  }

  lemma ReadElementsShort(data: seq<u8>, pos: nat, w: nat, n: int, acc: seq<int>)
    requires pos <= |data| < pos + w && 1 <= w && 0 < n
    ensures ReadElementsAt(data, pos, w, n, acc) == Err(IoError)
  {
  }

  lemma ReadElementsStop(data: seq<u8>, pos: nat, w: nat, n: int, acc: seq<int>)
    requires pos <= |data| && 1 <= w && n <= 0
    ensures ReadElementsAt(data, pos, w, n, acc) == Ok(Decoded(acc, pos))
  {
  }

  lemma ReadTagsStep(ty: u8, n: int, data: seq<u8>, pos: nat, acc: seq<Tag>, e: Decoded<Tag>)
    requires pos <= |data| && 0 < n
    requires ReadTypeAt(ty, data, pos) == Ok(e)
    ensures pos <= e.next <= |data|
    ensures ReadTagsAt(ty, n, data, pos, acc) == ReadTagsAt(ty, n - 1, data, e.next, acc + [e.value])
  {
  }

  lemma ReadTagsStop(ty: u8, n: int, data: seq<u8>, pos: nat, acc: seq<Tag>)
    requires pos <= |data| && n <= 0
    ensures ReadTagsAt(ty, n, data, pos, acc) == Ok(Decoded(acc, pos))
  {
  }

  lemma ReadTagsFail(ty: u8, n: int, data: seq<u8>, pos: nat, acc: seq<Tag>)
    requires pos <= |data| && 0 < n && ReadTypeAt(ty, data, pos).Err?
    ensures ReadTagsAt(ty, n, data, pos, acc) == Err(ReadTypeAt(ty, data, pos).error)
  {
  }

  lemma ReadEntriesStep(data: seq<u8>, pos: nat, acc: map<seq<u8>, Tag>, name: seq<u8>, e: Decoded<Tag>)
    requires pos + 3 + |name| <= |data| && data[pos] != 0x00
    requires ReadUnsignedAt(data, pos + 1, 2) == Some(Decoded(|name|, pos + 3))
    requires EatAt(data, pos + 3, |name|) == Some(Decoded(name, pos + 3 + |name|))
    requires IsUtf8(name)
    requires ReadTypeAt(data[pos], data, pos + 3 + |name|) == Ok(e)
    ensures pos + 3 + |name| <= e.next <= |data|
    ensures ReadEntriesAt(data, pos, acc) == ReadEntriesAt(data, e.next, acc[name := e.value])
  {
  }

  lemma ReadEntriesFail(data: seq<u8>, pos: nat, acc: map<seq<u8>, Tag>, name: seq<u8>)
    requires pos + 3 + |name| <= |data| && data[pos] != 0x00
    requires ReadUnsignedAt(data, pos + 1, 2) == Some(Decoded(|name|, pos + 3))
    requires EatAt(data, pos + 3, |name|) == Some(Decoded(name, pos + 3 + |name|))
    requires IsUtf8(name)
    requires ReadTypeAt(data[pos], data, pos + 3 + |name|).Err?
    ensures ReadEntriesAt(data, pos, acc) == Err(ReadTypeAt(data[pos], data, pos + 3 + |name|).error)
  {
    hide ReadTypeAt;
  }

  /** The entry loop stops at `end`: end of input, or a `0x00` type byte there. */
  predicate EndsAt(data: seq<u8>, end: nat) {
    end == |data| || (end < |data| && data[end] == 0x00)
  }

  /** Where the entry loop leaves the cursor when it stops at `end`. */
  function After(data: seq<u8>, end: nat): nat {
    if end < |data| then end + 1 else end
  }

  lemma ReadEntriesStop(data: seq<u8>, pos: nat, acc: map<seq<u8>, Tag>)
    requires EndsAt(data, pos)
    ensures ReadEntriesAt(data, pos, acc) == Ok(Decoded(acc, After(data, pos)))
  {
  }

  lemma ReadListShort(data: seq<u8>, pos: nat)
    requires pos <= |data| < pos + 5
    ensures ReadListAt(data, pos) == Err(IoError)
  {
  }

  lemma ReadListFields(data: seq<u8>, pos: nat, ty: u8, n: int)
    requires pos + 5 <= |data| && data[pos] == ty
    requires ReadSignedAt(data, pos + 1, 4) == Some(Decoded(n, pos + 5))
    ensures ReadListAt(data, pos) == ReadTagsAt(ty, n, data, pos + 5, [])
  {
  }

  // `read_type`'s cases, each in terms of the reader it dispatches to

  lemma ReadTypeOfByte(data: seq<u8>, pos: nat, v: i8, next: nat)
    requires pos <= |data| && ReadSignedAt(data, pos, 1) == Some(Decoded(v as int, next))
    ensures ReadTypeAt(0x01, data, pos) == Ok(Decoded(ByteTag(v), next))
  {
  }

  lemma ReadTypeOfShort(data: seq<u8>, pos: nat, v: i16, next: nat)
    requires pos <= |data| && ReadSignedAt(data, pos, 2) == Some(Decoded(v as int, next))
    ensures ReadTypeAt(0x02, data, pos) == Ok(Decoded(ShortTag(v), next))
  {
  }

  lemma ReadTypeOfInt(data: seq<u8>, pos: nat, v: i32, next: nat)
    requires pos <= |data| && ReadSignedAt(data, pos, 4) == Some(Decoded(v as int, next))
    ensures ReadTypeAt(0x03, data, pos) == Ok(Decoded(IntTag(v), next))
  {
  }

  lemma ReadTypeOfLong(data: seq<u8>, pos: nat, v: i64, next: nat)
    requires pos <= |data| && ReadSignedAt(data, pos, 8) == Some(Decoded(v as int, next))
    ensures ReadTypeAt(0x04, data, pos) == Ok(Decoded(LongTag(v), next))
  {
  }

  lemma ReadTypeOfFloat(data: seq<u8>, pos: nat, v: u32, next: nat)
    requires pos <= |data| && ReadUnsignedAt(data, pos, 4) == Some(Decoded(v as nat, next))
    ensures ReadTypeAt(0x05, data, pos) == Ok(Decoded(FloatTag(v), next))
  {
  }

  lemma ReadTypeOfDouble(data: seq<u8>, pos: nat, v: u64, next: nat)
    requires pos <= |data| && ReadUnsignedAt(data, pos, 8) == Some(Decoded(v as nat, next))
    ensures ReadTypeAt(0x06, data, pos) == Ok(Decoded(DoubleTag(v), next))
  {
  }

  lemma ReadTypeOfByteArray(data: seq<u8>, pos: nat, v: seq<i8>, next: nat)
    requires pos <= |data| && ReadArrayAt(data, pos, 1) == Ok(Decoded(v, next))
    ensures ReadTypeAt(0x07, data, pos) == Ok(Decoded(ByteArray(v), next))
  {
  }

  lemma ReadTypeOfString(data: seq<u8>, pos: nat, s: seq<u8>, next: nat)
    requires pos <= |data| && ReadStringAt(data, pos) == Ok(Decoded(s, next))
    ensures ReadTypeAt(0x08, data, pos) == Ok(Decoded(StringTag(s), next))
  {
  }

  lemma ReadTypeOfList(data: seq<u8>, pos: nat, xs: seq<Tag>, next: nat)
    requires pos <= |data| && ReadListAt(data, pos) == Ok(Decoded(xs, next))
    ensures ReadTypeAt(0x09, data, pos) == Ok(Decoded(ListTag(xs), next))
  {
  }

  lemma ReadTypeOfBadList(data: seq<u8>, pos: nat)
    requires pos <= |data| && ReadListAt(data, pos).Err?
    ensures ReadTypeAt(0x09, data, pos) == Err(ReadListAt(data, pos).error)
  {
  }

  lemma ReadTypeOfBadCompound(data: seq<u8>, pos: nat)
    requires pos <= |data| && ReadEntriesAt(data, pos, map[]).Err?
    ensures ReadTypeAt(0x0A, data, pos) == Err(ReadEntriesAt(data, pos, map[]).error)
  {
  }

  lemma ReadTypeOfCompound(data: seq<u8>, pos: nat, m: map<seq<u8>, Tag>, next: nat)
    requires pos <= |data| && ReadEntriesAt(data, pos, map[]) == Ok(Decoded(m, next))
    ensures ReadTypeAt(0x0A, data, pos) == Ok(Decoded(CompoundTag(m), next))
  {
  }

  lemma ReadTypeOfIntArray(data: seq<u8>, pos: nat, v: seq<i32>, next: nat)
    requires pos <= |data| && ReadArrayAt(data, pos, 4) == Ok(Decoded(v, next))
    ensures ReadTypeAt(0x0B, data, pos) == Ok(Decoded(IntArray(v), next))
  {
  }

  lemma ReadTypeOfLongArray(data: seq<u8>, pos: nat, v: seq<i64>, next: nat)
    requires pos <= |data| && ReadArrayAt(data, pos, 8) == Ok(Decoded(v, next))
    ensures ReadTypeAt(0x0C, data, pos) == Ok(Decoded(LongArray(v), next))
  {
  }

  lemma ReadArrayFields(data: seq<u8>, pos: nat, w: nat)
    requires pos <= |data| && 1 <= w
    ensures ReadSignedAt(data, pos, 4).None? ==> ReadArrayAt(data, pos, w) == Err(IoError)
    ensures ReadSignedAt(data, pos, 4).Some?
        ==> ReadArrayAt(data, pos, w) == ReadElementsAt(data, pos + 4, w, ReadSignedAt(data, pos, 4).value.value, [])
  {
  }

  // ---------------------------------------------------------------------------
  // The reader over a stream

  /** `Tag::read`: the stream is a compound body; no root type byte or name is consumed. */
  method Read(src: Source) returns (r: Result<Tag, TagError>)
    requires src.Valid()
    modifies src
    ensures src.Valid()
    ensures Located(r, src.pos) == ReadTypeAt(0x0A, src.data, old(src.pos))
  {
    r := ReadType(0x0A, src);
  }

  /** `read_type`: dispatch on the type code. */
  method ReadType(ty: u8, src: Source) returns (r: Result<Tag, TagError>)
    requires src.Valid()
    modifies src
    ensures src.Valid()
    ensures Located(r, src.pos) == ReadTypeAt(ty, src.data, old(src.pos))
    decreases |src.data| - src.pos, 3
  {
    Pow256Widths();
    if ty == 0x01 {
      var v := src.ReadSigned(1);
      r := if v.Some? then Ok(ByteTag(v.value)) else Err(IoError);
    } else if ty == 0x02 {
      var v := src.ReadSigned(2);
      r := if v.Some? then Ok(ShortTag(v.value)) else Err(IoError);
    } else if ty == 0x03 {
      var v := src.ReadSigned(4);
      r := if v.Some? then Ok(IntTag(v.value)) else Err(IoError);
    } else if ty == 0x04 {
      var v := src.ReadSigned(8);
      r := if v.Some? then Ok(LongTag(v.value)) else Err(IoError);
    } else if ty == 0x05 {
      var v := src.ReadUnsigned(4);
      r := if v.Some? then Ok(FloatTag(v.value)) else Err(IoError);
    } else if ty == 0x06 {
      var v := src.ReadUnsigned(8);
      r := if v.Some? then Ok(DoubleTag(v.value)) else Err(IoError);
    } else if ty == 0x07 {
      var xs := ReadArray(src, 1);
      r := if xs.Ok? then Ok(ByteArray(xs.value)) else Err(xs.error);
    } else if ty == 0x08 {
      var s := ReadString(src);
      r := if s.Ok? then Ok(StringTag(s.value)) else Err(s.error);
    } else if ty == 0x09 {
      var xs := ReadList(src);
      r := if xs.Ok? then Ok(ListTag(xs.value)) else Err(xs.error);
    } else if ty == 0x0A {
      var m := ReadCompound(src);
      r := if m.Ok? then Ok(CompoundTag(m.value)) else Err(m.error);
    } else if ty == 0x0B {
      var xs := ReadArray(src, 4);
      r := if xs.Ok? then Ok(IntArray(xs.value)) else Err(xs.error);
    } else if ty == 0x0C {
      var xs := ReadArray(src, 8);
      r := if xs.Ok? then Ok(LongArray(xs.value)) else Err(xs.error);
    } else {
      r := Err(InvalidType);
    }
  }

  /** The array cases: read the length, then push one element per iteration. */
  method ReadArray(src: Source, w: nat) returns (r: Result<seq<int>, TagError>)
    requires src.Valid() && 1 <= w
    modifies src
    ensures src.Valid()
    ensures Located(r, src.pos) == ReadArrayAt(src.data, old(src.pos), w)
  {
    ReadArrayFields(src.data, src.pos, w);
    hide ReadArrayAt;
    var n := src.ReadSigned(4);
    if n.None? {
      return Err(IoError);
    }
    ghost var start := src.pos;
    var result: seq<int> := [];
    var i := 0;
    while i < n.value
      invariant src.Valid() && 0 <= i
      invariant ReadElementsAt(src.data, start, w, n.value, [])
             == ReadElementsAt(src.data, src.pos, w, n.value - i, result)
      decreases n.value - i
    {
      var x := src.ReadSigned(w);
      if x.None? {
        return Err(IoError);
      }
      result := result + [x.value];
      i := i + 1;
    }
    r := Ok(result);
  }

  /** The string case: a `u16` length, `eat` that many bytes, decode lossily. */
  method ReadString(src: Source) returns (r: Result<seq<u8>, TagError>)
    requires src.Valid()
    modifies src
    ensures src.Valid()
    ensures Located(r, src.pos) == ReadStringAt(src.data, old(src.pos))
  {
    var n := src.ReadUnsigned(2);
    if n.None? {
      return Err(IoError);
    }
    var bs := src.Eat(n.value);
    if bs.None? {
      return Err(IoError);
    }
    r := Ok(Lossy(bs.value));
  }

  /** The list case: element type, length, then one `read_type` per element. */
  method ReadList(src: Source) returns (r: Result<seq<Tag>, TagError>)
    requires src.Valid()
    modifies src
    ensures src.Valid()
    ensures Located(r, src.pos) == ReadListAt(src.data, old(src.pos))
    decreases |src.data| - src.pos, 2
  {
    var ty := src.ReadU8();
    if ty.None? {
      return Err(IoError);
    }
    var n := src.ReadSigned(4);
    if n.None? {
      return Err(IoError);
    }
    ghost var start := src.pos;
    var result: seq<Tag> := [];
    var i := 0;
    while i < n.value
      invariant src.Valid() && start <= src.pos && 0 <= i
      invariant ReadTagsAt(ty.value, n.value, src.data, start, [])
             == ReadTagsAt(ty.value, n.value - i, src.data, src.pos, result)
      decreases n.value - i
    {
      var e := ReadType(ty.value, src);
      if e.Err? {
        return Err(e.error);
      }
      result := result + [e.value];
      i := i + 1;
    }
    r := Ok(result);
  }

  /** The compound case: the entry loop, ended by a `0x00` or an unreadable type byte. */
  method ReadCompound(src: Source) returns (r: Result<map<seq<u8>, Tag>, TagError>)
    requires src.Valid()
    modifies src
    ensures src.Valid()
    ensures Located(r, src.pos) == ReadEntriesAt(src.data, old(src.pos), map[])
    decreases |src.data| - src.pos, 1
  {
    ghost var start := src.pos;
    var result: map<seq<u8>, Tag> := map[];
    while true
      invariant src.Valid() && start <= src.pos
      invariant ReadEntriesAt(src.data, start, map[]) == ReadEntriesAt(src.data, src.pos, result)
      decreases |src.data| - src.pos
    {
      ghost var here := src.pos;
      var b := src.ReadU8();
      var ty := if b.Some? then b.value else 0x00;
      if ty == 0x00 {
        assert ReadEntriesAt(src.data, here, result) == Ok(Decoded(result, src.pos));
        return Ok(result);
      }
      var n := src.ReadUnsigned(2);
      if n.None? {
        return Err(IoError);
      }
      var name := src.Eat(n.value);
      if name.None? {
        return Err(IoError);
      }
      if !IsUtf8(name.value) {
        return Err(InvalidUtf8);
      }
      var v := ReadType(ty, src);
      if v.Err? {
        return Err(v.error);
      }
      result := result[name.value := v.value];
    }
  }
}
