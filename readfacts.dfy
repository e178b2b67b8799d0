/**
 * What `read_type` does, case by case, stated against the bytes: how many
 * bytes each payload takes, what value it decodes to, and which error each
 * malformed input gives.
 */
module NbtReadFacts {
  import opened Bytes
  import opened Results
  import opened Utf8
  import opened Stream
  import opened NbtTag
  import opened NbtRead
  import opened NbtWrite

  /** The byte width of a number payload, by type code. */
  function ScalarWidth(ty: u8): (w: nat)
    requires 0x01 <= ty <= 0x06
    ensures w in {1, 2, 4, 8}
  {
    match ty
    case 0x01 => 1
    case 0x02 => 2
    case 0x03 => 4
    case 0x04 => 8
    case 0x05 => 4
    case 0x06 => 8
  }

  /**
   * The number `bs` holds for type code `ty`: a big-endian two's-complement
   * integer for codes 1 to 4, a raw big-endian bit pattern for 5 and 6.
   */
  function ScalarOf(ty: u8, bs: seq<u8>): (t: Tag)
    requires 0x01 <= ty <= 0x06 && |bs| == ScalarWidth(ty)
    ensures TypeCode(t) == ty
  {
    Pow256Widths();
    match ty
    case 0x01 => ByteTag(ToSigned(FromBE(bs), 1))
    case 0x02 => ShortTag(ToSigned(FromBE(bs), 2))
    case 0x03 => IntTag(ToSigned(FromBE(bs), 4))
    case 0x04 => LongTag(ToSigned(FromBE(bs), 8))
    case 0x05 => FloatTag(FromBE(bs))
    case 0x06 => DoubleTag(FromBE(bs))
  }

  /** A number payload takes exactly its width in bytes, and a short read is an `IoError`. */
  lemma ReadScalar(ty: u8, data: seq<u8>, pos: nat)
    requires 0x01 <= ty <= 0x06 && pos <= |data|
    ensures var r := ReadTypeAt(ty, data, pos);
      && (r.Ok? <==> pos + ScalarWidth(ty) <= |data|)
      && (r.Ok? ==> r.value == Decoded(ScalarOf(ty, data[pos..pos + ScalarWidth(ty)]), pos + ScalarWidth(ty)))
      && (r.Err? ==> r.error == IoError)
  {
    Pow256Widths();
  }

  /** The `i`-th group of `w` bytes from `pos`, as a two's-complement value. */
  function Element(data: seq<u8>, pos: nat, w: nat, i: nat): (v: int)
    requires 1 <= w && pos + w * i + w <= |data|
    ensures Fits(v, w)
  {
    ToSigned(FromBE(data[pos + w * i..pos + w * i + w]), w)
  }

  lemma MulStep(w: nat, k: nat)
    ensures w * (k + 1) == w * k + w
  {
  }

  lemma MulBelow(w: nat, i: nat, k: nat)
    requires i < k
    ensures w * i + w <= w * k
  {
    MulStep(w, i);
    assert i + 1 <= k;
  }

  lemma ElementFirst(data: seq<u8>, pos: nat, w: nat)
    requires 1 <= w && pos + w <= |data|
    ensures Element(data, pos, w, 0) == ToSigned(FromBE(data[pos..pos + w]), w)
  {
    assert w * 0 == 0;
  }

  lemma ElementShift(data: seq<u8>, pos: nat, w: nat, i: nat)
    requires 1 <= w && 1 <= i && pos + w * i + w <= |data|
    ensures pos + w + w * (i - 1) + w <= |data|
    ensures Element(data, pos + w, w, i - 1) == Element(data, pos, w, i)
  {
    MulStep(w, i - 1);
  }

  /**
   * The element loop succeeds exactly when its values are all present, and
   * then leaves the cursor right after the last. (What it keeps and how many
   * values it adds is `ReadElementsFacts`.)
   */
  lemma {:induction false} ReadElementsShape(data: seq<u8>, pos: nat, w: nat, n: int, acc: seq<int>)
    requires pos <= |data| && 1 <= w
    ensures var r := ReadElementsAt(data, pos, w, n, acc);
      && (r.Ok? <==> pos + w * Iterations(n) <= |data|)
      && (r.Ok? ==> r.value.next == pos + w * Iterations(n))
    decreases Iterations(n)
  {
    hide ReadSignedAt, ReadElementsAt, Element, ToSigned, FromBE;
    if n <= 0 {
      ReadElementsStop(data, pos, w, n, acc);
    } else {
      var k := Iterations(n);
      assert Iterations(n - 1) == k - 1;
      MulStep(w, k - 1);
      if pos + w <= |data| {
        ReadSignedBytes(data, pos, w);
        var x := ToSigned(FromBE(data[pos..pos + w]), w);
        ReadElementsStep(data, pos, w, n, acc, x);
        ReadElementsShape(data, pos + w, w, n - 1, acc + [x]);
      } else {
        ReadElementsShort(data, pos, w, n, acc);
        assert w * (k - 1) >= 0;
      }
    }
  }

  /** The values the element loop adds are the consecutive `w`-byte groups, in order. */
  lemma {:induction false} ReadElementsValues(data: seq<u8>, pos: nat, w: nat, n: int, acc: seq<int>)
    requires pos <= |data| && 1 <= w
    requires ReadElementsAt(data, pos, w, n, acc).Ok?
    ensures pos + w * Iterations(n) <= |data|
    ensures forall i | 0 <= i < Iterations(n) ::
      && pos + w * i + w <= |data|
      && |acc| + i < |ReadElementsAt(data, pos, w, n, acc).value.value|
      && ReadElementsAt(data, pos, w, n, acc).value.value[|acc| + i] == Element(data, pos, w, i)
    decreases Iterations(n)
  {
    hide ReadElementsAt, ReadSignedAt, Element, ToSigned, FromBE;
    ReadElementsShape(data, pos, w, n, acc);
    ReadElementsFacts(data, pos, w, n, acc);
    if n > 0 {
      var k := Iterations(n);
      assert k - 1 == Iterations(n - 1);
      MulStep(w, k - 1);
      ReadSignedBytes(data, pos, w);
      var x := ToSigned(FromBE(data[pos..pos + w]), w);
      ReadElementsStep(data, pos, w, n, acc, x);
      ReadElementsShape(data, pos + w, w, n - 1, acc + [x]);
      ReadElementsFacts(data, pos + w, w, n - 1, acc + [x]);
      ReadElementsValues(data, pos + w, w, n - 1, acc + [x]);
      var v := ReadElementsAt(data, pos, w, n, acc).value.value;
      assert v == ReadElementsAt(data, pos + w, w, n - 1, acc + [x]).value.value;
      forall i | 0 <= i < k
        ensures pos + w * i + w <= |data| && |acc| + i < |v| && v[|acc| + i] == Element(data, pos, w, i)
      {
        MulBelow(w, i, k);
        if i == 0 {
          assert v[..|acc + [x]|] == acc + [x];
          assert v[|acc|] == (acc + [x])[|acc|];
          ElementFirst(data, pos, w);
        } else {
          MulBelow(w, i - 1, k - 1);
          ElementShift(data, pos, w, i);
        }
      }
    }
  }

  /**
   * A typed array is its `i32` length `L` followed by `max(L, 0)` groups of
   * `w` bytes; it is read when all of them are present, and any short read
   * is an `IoError`.
   */
  lemma ReadArrayContent(data: seq<u8>, pos: nat, w: nat)
    requires pos <= |data| && 1 <= w
    ensures var r := ReadArrayAt(data, pos, w);
      && (r.Err? ==> r.error == IoError)
      && (r.Ok? <==> pos + 4 <= |data| && pos + 4 + w * Iterations(LengthAt(data, pos)) <= |data|)
      && (r.Ok? ==> r.value.next == pos + 4 + w * Iterations(LengthAt(data, pos)))
      && (r.Ok? ==> |r.value.value| == Iterations(LengthAt(data, pos)))
      && (r.Ok? ==> forall i | 0 <= i < |r.value.value| ::
            pos + 4 + w * i + w <= |data| && r.value.value[i] == Element(data, pos + 4, w, i))
  {
    hide ReadArrayAt, ReadElementsAt, ReadSignedAt, Element, ToSigned, FromBE;
    ReadArrayFields(data, pos, w);
    if pos + 4 <= |data| {
      ReadSignedBytes(data, pos, 4);
      var n := LengthAt(data, pos);
      ReadElementsShape(data, pos + 4, w, n, []);
      ReadElementsFacts(data, pos + 4, w, n, []);
      if ReadElementsAt(data, pos + 4, w, n, []).Ok? {
        ReadElementsValues(data, pos + 4, w, n, []);
      }
    }
  }

  /** A negative array length reads as an empty array and consumes only the length. */
  lemma ReadArrayNegative(data: seq<u8>, pos: nat, w: nat)
    requires pos + 4 <= |data| && 1 <= w && LengthAt(data, pos) < 0
    ensures ReadArrayAt(data, pos, w) == Ok(Decoded([], pos + 4))
  {
    hide ReadArrayAt, ReadElementsAt, ReadSignedAt, ToSigned, FromBE;
    ReadArrayFields(data, pos, w);
    ReadSignedBytes(data, pos, 4);
    ReadElementsStop(data, pos + 4, w, LengthAt(data, pos), []);
  }

  /**
   * A string is read when its length and all its bytes are present, and its
   * value is the lossy decoding of those bytes, which is always well-formed
   * UTF-8: the string case never reports `InvalidUtf8`.
   */
  lemma ReadStringContent(data: seq<u8>, pos: nat)
    requires pos <= |data|
    ensures var r := ReadStringAt(data, pos);
      && (r.Ok? <==> pos + 2 <= |data| && pos + 2 + StringLengthAt(data, pos) <= |data|)
      && (r.Ok? ==> var end := pos + 2 + StringLengthAt(data, pos);
            r.value == Decoded(Lossy(data[pos + 2..end]), end))
      && (r.Ok? ==> IsUtf8(r.value.value))
      && (r.Err? ==> r.error == IoError)
  {
    if pos + 2 <= |data| && pos + 2 + StringLengthAt(data, pos) <= |data| {
      LossyIsValid(data[pos + 2..pos + 2 + StringLengthAt(data, pos)]);
    }
  }

  /**
   * `read_type(ty)` produces a tag of type `ty` and nothing else; the end
   * code `0x00` and every code above `0x0C` are `InvalidType`, and a value
   * that holds no other tags can only fail on a short read.
   */
  lemma ReadTypeCode(ty: u8, data: seq<u8>, pos: nat)
    requires pos <= |data|
    ensures var r := ReadTypeAt(ty, data, pos);
      && (r.Ok? ==> TypeCode(r.value.value) == ty)
      && ((ty == 0x00 || 0x0C < ty) ==> r == Err(InvalidType))
      && (0x01 <= ty <= 0x0C && ty != 0x09 && ty != 0x0A && r.Err? ==> r.error == IoError)
  {
    hide ReadArrayAt, ReadStringAt, ReadListAt, ReadEntriesAt, ReadSignedAt, ReadUnsignedAt, ReadElementsAt, Lossy, ToSigned, FromBE, Pow256;
    if 0x01 <= ty <= 0x0C {
      match ty
      case 0x07 => ReadArrayContent(data, pos, 1);
      case 0x08 => ReadStringContent(data, pos);
      case 0x0B => ReadArrayContent(data, pos, 4);
      case 0x0C => ReadArrayContent(data, pos, 8);
      case _ =>
    }
  }

  /** The list loop adds `max(n, 0)` tags to those it was given, every one of type `ty`. */
  lemma {:induction false} ReadTagsContent(ty: u8, n: int, data: seq<u8>, pos: nat, acc: seq<Tag>)
    requires pos <= |data|
    ensures var r := ReadTagsAt(ty, n, data, pos, acc);
      r.Ok? ==>
        && |r.value.value| == |acc| + Iterations(n)
        && r.value.value[..|acc|] == acc
        && forall i | |acc| <= i < |r.value.value| :: TypeCode(r.value.value[i]) == ty
    decreases Iterations(n)
  {
    hide ReadTypeAt, ReadTagsAt, TypeCode;
    if n <= 0 {
      ReadTagsStop(ty, n, data, pos, acc);
    } else {
      var e := ReadTypeAt(ty, data, pos);
      if e.Ok? {
        ReadTypeCode(ty, data, pos);
        ReadTagsStep(ty, n, data, pos, acc, e.value);
        ReadTagsContent(ty, n - 1, data, e.value.next, acc + [e.value.value]);
        var r := ReadTagsAt(ty, n - 1, data, e.value.next, acc + [e.value.value]);
        if r.Ok? {
          var v := r.value.value;
          assert v[..|acc|] == (acc + [e.value.value])[..|acc|];
          assert v[|acc|] == (acc + [e.value.value])[|acc|];
        }
      } else {
        ReadTagsFail(ty, n, data, pos, acc);
      }
    }
  }

  /**
   * A list is its element type byte, its `i32` length `L` and `max(L, 0)`
   * payloads, all decoded with that one type: the elements share a variant.
   */
  lemma ReadListContent(data: seq<u8>, pos: nat)
    requires pos <= |data|
    ensures var r := ReadListAt(data, pos);
      r.Ok? ==>
        && pos + 5 <= |data|
        && |r.value.value| == Iterations(LengthAt(data, pos + 1))
        && forall i | 0 <= i < |r.value.value| :: TypeCode(r.value.value[i]) == data[pos]
    ensures |data| < pos + 5 ==> ReadListAt(data, pos) == Err(IoError)
  {
    hide ReadListAt, ReadTagsAt, ReadSignedAt, ReadTypeAt, ToSigned, FromBE, TypeCode;
    if pos + 5 <= |data| {
      ReadSignedBytes(data, pos + 1, 4);
      ReadListFields(data, pos, data[pos], LengthAt(data, pos + 1));
      ReadTagsContent(data[pos], LengthAt(data, pos + 1), data, pos + 5, []);
    } else {
      ReadListShort(data, pos);
    }
  }

  /** A list of end-type elements with a positive length is `InvalidType`: `0x00` has no payload reader. */
  lemma ReadListOfEnd(data: seq<u8>, pos: nat)
    requires pos + 5 <= |data| && data[pos] == 0x00 && LengthAt(data, pos + 1) > 0
    ensures ReadListAt(data, pos) == Err(InvalidType)
  {
    hide ReadListAt, ReadTagsAt, ReadSignedAt, ToSigned, FromBE;
    ReadSignedBytes(data, pos + 1, 4);
    ReadListFields(data, pos, 0x00, LengthAt(data, pos + 1));
    ReadTypeCode(0x00, data, pos + 5);
    ReadTagsFail(0x00, LengthAt(data, pos + 1), data, pos + 5, []);
  }

  /** An entry whose name bytes are not UTF-8 stops the compound with `InvalidUtf8`. */
  lemma ReadEntryBadName(data: seq<u8>, pos: nat, acc: map<seq<u8>, Tag>, name: seq<u8>)
    requires pos + 3 + |name| <= |data| && data[pos] != 0x00
    requires ReadUnsignedAt(data, pos + 1, 2) == Some(Decoded(|name|, pos + 3))
    requires data[pos + 3..pos + 3 + |name|] == name && !IsUtf8(name)
    ensures ReadEntriesAt(data, pos, acc) == Err(InvalidUtf8)
  {
    hide ReadTypeAt;
  }

  /**
   * Once a non-zero type byte is read, the entry must go on: a name length or
   * name cut off by the end of input is `IoError`, not an implicit end.
   */
  lemma ReadEntryTruncated(data: seq<u8>, pos: nat, acc: map<seq<u8>, Tag>)
    requires pos < |data| && data[pos] != 0x00
    requires |data| < pos + 3 || |data| < pos + 3 + StringLengthAt(data, pos + 1)
    ensures ReadEntriesAt(data, pos, acc) == Err(IoError)
  {
    hide ReadTypeAt;
  }

  // Whole documents

  /** An empty stream is an empty compound: end of input ends the root entry loop. */
  lemma ReadEmptyDocument()
    ensures ReadDocument([]) == Ok(CompoundTag(map[]))
  {
  }

  /**
   * A document that starts with a root type byte and an empty root name is not
   * read as that root: the bytes `0A 00 00 00` are a compound holding one
   * empty-named, empty compound.
   */
  lemma ReadRootHeader()
    ensures ReadDocument([0x0A, 0x00, 0x00, 0x00]) == Ok(CompoundTag(map[[] := CompoundTag(map[])]))
  {
    hide ReadTypeAt, ReadEntriesAt;
    var data: seq<u8> := [0x0A, 0x00, 0x00, 0x00];
    var inner := Decoded(CompoundTag(map[]), 4);
    ReadEntriesStop(data, 3, map[]);
    ReadTypeOfCompound(data, 3, map[], 4);
    assert data[1..3] == [0x00, 0x00];
    assert ReadUnsignedAt(data, 1, 2) == Some(Decoded(0, 3));
    ReadEntriesStep(data, 0, map[], [], inner);
    ReadEntriesStop(data, 4, map[[] := inner.value]);
    ReadTypeOfCompound(data, 0, map[[] := inner.value], 4);
  }

  /** A byte entry named `a` holding `v`, as the writer lays it out. */
  lemma ReadByteEntry(data: seq<u8>, pos: nat, v: u8, acc: map<seq<u8>, Tag>)
    requires v < 0x80 && pos + 5 <= |data| && data[pos..pos + 5] == [0x01, 0x00, 0x01, 0x61, v]
    ensures ReadEntriesAt(data, pos, acc) == ReadEntriesAt(data, pos + 5, acc[[0x61] := ByteTag(v as i8)])
  {
    hide ReadTypeAt, ReadEntriesAt;
    var name: seq<u8> := [0x61];
    assert IsUtf8(name[1..]);
    assert IsUtf8(name);
    var h := data[pos..pos + 5];
    assert data[pos] == h[0] == 0x01 && data[pos + 1] == h[1] && data[pos + 2] == h[2];
    assert data[pos + 3] == h[3] && data[pos + 4] == h[4];
    assert data[pos + 1..pos + 3] == [0x00, 0x01] && data[pos + 3..pos + 4] == name && data[pos + 4..pos + 5] == [v];
    assert [0x00, 0x01][..1] == [0x00];
    assert FromBE([0x00, 0x01]) == 1;
    assert ReadUnsignedAt(data, pos + 1, 2) == Some(Decoded(1, pos + 3));
    ReadTypeOfByte(data, pos + 4, v as i8, pos + 5);
    ReadEntriesStep(data, pos, acc, name, Decoded(ByteTag(v as i8), pos + 5));
  }

  /** A repeated entry name keeps the later entry. */
  lemma ReadRepeatedName()
    ensures ReadDocument([0x01, 0x00, 0x01, 0x61, 0x05, 0x01, 0x00, 0x01, 0x61, 0x07])
         == Ok(CompoundTag(map[[0x61] := ByteTag(7)]))
  {
    hide ReadTypeAt, ReadEntriesAt;
    var data: seq<u8> := [0x01, 0x00, 0x01, 0x61, 0x05, 0x01, 0x00, 0x01, 0x61, 0x07];
    var name: seq<u8> := [0x61];
    assert data[0..5] == [0x01, 0x00, 0x01, 0x61, 0x05];
    assert data[5..10] == [0x01, 0x00, 0x01, 0x61, 0x07];
    ReadByteEntry(data, 0, 0x05, map[]);
    ReadByteEntry(data, 5, 0x07, map[name := ByteTag(5)]);
    assert map[name := ByteTag(5)][name := ByteTag(7)] == map[name := ByteTag(7)];
    ReadEntriesStop(data, 10, map[name := ByteTag(7)]);
    ReadTypeOfCompound(data, 0, map[name := ByteTag(7)], 10);
  }

  /** A type byte with no name length after it is an `IoError`. */
  lemma ReadTruncatedEntry()
    ensures ReadDocument([0x01, 0x00]) == Err(IoError)
  {
  }

  /** A name that is not UTF-8 is `InvalidUtf8`. */
  lemma ReadInvalidName()
    ensures ReadDocument([0x01, 0x00, 0x01, 0xFF, 0x05]) == Err(InvalidUtf8)
  {
    hide ReadEntriesAt;
    var data: seq<u8> := [0x01, 0x00, 0x01, 0xFF, 0x05];
    assert data[1..3] == [0x00, 0x01] && data[3..4] == [0xFF];
    assert !IsUtf8([0xFF]);
    ReadEntryBadName(data, 0, map[], [0xFF]);
  }
}
