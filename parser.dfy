/**
 * The legacy parser (`Tag::parse`, `parse_type`): the same recursive descent
 * over the byte stream as the reader, over its own tag type. Type code `0x00`
 * is a payload-less `EndTag`, typed arrays are not read, and strings and
 * names are decoded strictly. As for the reader, the `...At` functions say
 * what is parsed from `data` at a position, and the methods run the same
 * loops over a `Source` and are proved to agree with them.
 */
module LegacyParser {
  import opened Bytes
  import opened Results
  import opened Utf8
  import opened Stream
  import NbtTag
  import NbtRead
  import NbtReadFacts

  /** Why parsing failed (`TagParseErr`). */
  datatype ParseError = InvalidType | InvalidLength | InvalidUtf8 | IoError

  /** The legacy tag: an `EndTag` and the twelve payload-carrying variants. */
  datatype Tag =
    | EndTag
    | ByteTag(byteValue: i8)
    | ShortTag(shortValue: i16)
    | IntTag(intValue: i32)
    | LongTag(longValue: i64)
    | FloatTag(floatBits: u32)
    | DoubleTag(doubleBits: u64)
    | ByteArray(bytes: seq<i8>)
    | StringTag(text: seq<u8>)
    | ListTag(elements: seq<Tag>)
    | CompoundTag(entries: map<seq<u8>, Tag>)
    | IntArray(ints: seq<i32>)
    | LongArray(longs: seq<i64>)

  /** A short read becomes `IoError` (the `From<io::Error>` conversion). */
  function NeedIo<T>(o: Option<T>): (r: Result<T, ParseError>)
    ensures r.Ok? <==> o.Some?
    ensures r.Ok? ==> r.value == o.value
    ensures r.Err? ==> r.error == IoError
  {
    match o
    case Some(v) => Ok(v)
    case None => Err(IoError)
  }

  // ---------------------------------------------------------------------------
  // What is parsed

  /** `Tag::parse` on a stream holding exactly `data`: a compound body from the first byte. */
  function ParseDocument(data: seq<u8>): Result<Tag, ParseError> {
    var d :- ParseTypeAt(0x0A, data, 0);
    Ok(d.value)
  }

  /** `parse_type(ty)` with the cursor at `pos`. */
  function ParseTypeAt(ty: u8, data: seq<u8>, pos: nat): (r: Result<Decoded<Tag>, ParseError>)
    requires pos <= |data|
    ensures r.Ok? ==> pos <= r.value.next <= |data|
    ensures r.Err? ==> r.error != InvalidLength
    decreases |data| - pos, 3, 0
  {
    Pow256Widths();
    match ty
    case 0x00 => Ok(Decoded(EndTag, pos))
    case 0x01 =>
      var v :- NeedIo(ReadSignedAt(data, pos, 1));
      Ok(Decoded(ByteTag(v.value), v.next))
    case 0x02 =>
      var v :- NeedIo(ReadSignedAt(data, pos, 2));
      Ok(Decoded(ShortTag(v.value), v.next))
    case 0x03 =>
      var v :- NeedIo(ReadSignedAt(data, pos, 4));
      Ok(Decoded(IntTag(v.value), v.next))
    case 0x04 =>
      var v :- NeedIo(ReadSignedAt(data, pos, 8));
      Ok(Decoded(LongTag(v.value), v.next))
    case 0x05 =>
      var v :- NeedIo(ReadUnsignedAt(data, pos, 4));
      Ok(Decoded(FloatTag(v.value), v.next))
    case 0x06 =>
      var v :- NeedIo(ReadUnsignedAt(data, pos, 8));
      Ok(Decoded(DoubleTag(v.value), v.next))
    case 0x08 =>
      var s :- ParseStringAt(data, pos);
      Ok(Decoded(StringTag(s.value), s.next))
    case 0x09 =>
      var xs :- ParseListAt(data, pos);
      Ok(Decoded(ListTag(xs.value), xs.next))
    case 0x0A =>
      var m :- ParseEntriesAt(data, pos, map[]);
      Ok(Decoded(CompoundTag(m.value), m.next))
    case _ => Err(InvalidType)
  }

  /** A string value or entry name: a `u16` length, that many bytes, which must be UTF-8. */
  function ParseStringAt(data: seq<u8>, pos: nat): (r: Result<Decoded<seq<u8>>, ParseError>)
    requires pos <= |data|
    ensures r.Ok? ==> pos + 2 <= r.value.next <= |data| && IsUtf8(r.value.value)
    ensures r.Err? ==> r.error == IoError || r.error == InvalidUtf8
  {
    var n :- NeedIo(ReadUnsignedAt(data, pos, 2));
    var bs :- NeedIo(EatAt(data, n.next, n.value));
    if IsUtf8(bs.value) then Ok(Decoded(bs.value, bs.next)) else Err(InvalidUtf8)
  }

  /** A list: an element type byte, an `i32` length, then that many values of that one type. */
  function ParseListAt(data: seq<u8>, pos: nat): (r: Result<Decoded<seq<Tag>>, ParseError>)
    requires pos <= |data|
    ensures r.Ok? ==> pos + 5 <= r.value.next <= |data|
    ensures r.Err? ==> r.error != InvalidLength
    decreases |data| - pos, 2, 0
  {
    var ty :- NeedIo(ReadU8At(data, pos));
    var n :- NeedIo(ReadSignedAt(data, ty.next, 4));
    ParseTagsAt(ty.value, n.value, data, n.next, [])
  }

  /** `for _ in 0..n { result.push(parse_type(ty)?) }`, continuing `acc`. */
  function ParseTagsAt(ty: u8, n: int, data: seq<u8>, pos: nat, acc: seq<Tag>): (r: Result<Decoded<seq<Tag>>, ParseError>)
    requires pos <= |data|
    ensures r.Ok? ==> pos <= r.value.next <= |data|
    ensures r.Err? ==> r.error != InvalidLength
    decreases |data| - pos, 4, Iterations(n)
  {
    if n <= 0 then Ok(Decoded(acc, pos))
    else
      var e :- ParseTypeAt(ty, data, pos);
      ParseTagsAt(ty, n - 1, data, e.next, acc + [e.value])
  }

  /**
   * The entry loop of a compound, continuing `acc`: stop at a `0x00` type
   * byte or when no type byte can be read; otherwise a name (parsed as a
   * strict string), the value, and insert (a repeated name replaces the
   * earlier entry).
   */
  function ParseEntriesAt(data: seq<u8>, pos: nat, acc: map<seq<u8>, Tag>): (r: Result<Decoded<map<seq<u8>, Tag>>, ParseError>)
    requires pos <= |data|
    ensures r.Ok? ==> pos <= r.value.next <= |data|
    ensures r.Err? ==> r.error != InvalidLength
    decreases |data| - pos, 1, 0
  {
    var b := ReadU8At(data, pos);
    if b.None? || b.value.value == 0x00 then
      Ok(Decoded(acc, if b.Some? then b.value.next else pos))
    else
      var name :- ParseStringAt(data, b.value.next);
      var v :- ParseTypeAt(b.value.value, data, name.next);
      ParseEntriesAt(data, v.next, acc[name.value := v.value])
  }

  // ---------------------------------------------------------------------------
  // One step of each loop

  lemma ParseTagsStep(ty: u8, n: int, data: seq<u8>, pos: nat, acc: seq<Tag>, e: Decoded<Tag>)
    requires pos <= |data| && 0 < n
    requires ParseTypeAt(ty, data, pos) == Ok(e)
    ensures pos <= e.next <= |data|
    ensures ParseTagsAt(ty, n, data, pos, acc) == ParseTagsAt(ty, n - 1, data, e.next, acc + [e.value])
  {
  }

  lemma ParseTagsStop(ty: u8, n: int, data: seq<u8>, pos: nat, acc: seq<Tag>)
    requires pos <= |data| && n <= 0
    ensures ParseTagsAt(ty, n, data, pos, acc) == Ok(Decoded(acc, pos))
  {
  }

  lemma ParseListFields(data: seq<u8>, pos: nat)
    requires pos + 5 <= |data|
    ensures ParseListAt(data, pos) == ParseTagsAt(data[pos], LengthAt(data, pos + 1), data, pos + 5, [])
  {
    ReadSignedBytes(data, pos + 1, 4);
  }

  lemma ParseEntriesStep(data: seq<u8>, pos: nat, acc: map<seq<u8>, Tag>, name: Decoded<seq<u8>>, e: Decoded<Tag>)
    requires pos < |data| && data[pos] != 0x00
    requires ParseStringAt(data, pos + 1) == Ok(name)
    requires ParseTypeAt(data[pos], data, name.next) == Ok(e)
    ensures pos < e.next <= |data|
    ensures ParseEntriesAt(data, pos, acc) == ParseEntriesAt(data, e.next, acc[name.value := e.value])
  {
  }

  lemma ParseEntriesStop(data: seq<u8>, pos: nat, acc: map<seq<u8>, Tag>)
    requires pos <= |data| && (pos == |data| || data[pos] == 0x00)
    ensures ParseEntriesAt(data, pos, acc) == Ok(Decoded(acc, if pos < |data| then pos + 1 else pos))
  {
  }

  lemma ParseTypeOfCompound(data: seq<u8>, pos: nat, m: map<seq<u8>, Tag>, next: nat)
    requires pos <= |data| && ParseEntriesAt(data, pos, map[]) == Ok(Decoded(m, next))
    ensures ParseTypeAt(0x0A, data, pos) == Ok(Decoded(CompoundTag(m), next))
  {
  }

  lemma ParseTypeOfList(data: seq<u8>, pos: nat, xs: seq<Tag>, next: nat)
    requires pos <= |data| && ParseListAt(data, pos) == Ok(Decoded(xs, next))
    ensures ParseTypeAt(0x09, data, pos) == Ok(Decoded(ListTag(xs), next))
  {
  }

  lemma ParseTypeOfBadString(data: seq<u8>, pos: nat)
    requires pos <= |data| && ParseStringAt(data, pos).Err?
    ensures ParseTypeAt(0x08, data, pos) == Err(ParseStringAt(data, pos).error)
  {
  }

  lemma ParseTypeOfBadCompound(data: seq<u8>, pos: nat)
    requires pos <= |data| && ParseEntriesAt(data, pos, map[]).Err?
    ensures ParseTypeAt(0x0A, data, pos) == Err(ParseEntriesAt(data, pos, map[]).error)
  {
  }

  lemma ParseEntriesFail(data: seq<u8>, pos: nat, acc: map<seq<u8>, Tag>, name: Decoded<seq<u8>>)
    requires pos < |data| && data[pos] != 0x00
    requires ParseStringAt(data, pos + 1) == Ok(name)
    requires ParseTypeAt(data[pos], data, name.next).Err?
    ensures ParseEntriesAt(data, pos, acc) == Err(ParseTypeAt(data[pos], data, name.next).error)
  {
  }

  lemma ParseTypeOfString(data: seq<u8>, pos: nat, s: seq<u8>, next: nat)
    requires pos <= |data| && ParseStringAt(data, pos) == Ok(Decoded(s, next))
    ensures ParseTypeAt(0x08, data, pos) == Ok(Decoded(StringTag(s), next))
  {
  }

  // ---------------------------------------------------------------------------
  // What the parser promises

  /** Type code `0x00` is an `EndTag` and consumes nothing. */
  lemma ParseEnd(data: seq<u8>, pos: nat)
    requires pos <= |data|
    ensures ParseTypeAt(0x00, data, pos) == Ok(Decoded(EndTag, pos))
  {
  }

  /** A loop over end-type elements adds `max(n, 0)` `EndTag`s and consumes nothing. */
  lemma {:induction false} ParseEndTags(n: int, data: seq<u8>, pos: nat, acc: seq<Tag>)
    requires pos <= |data|
    ensures ParseTagsAt(0x00, n, data, pos, acc) == Ok(Decoded(acc + seq(Iterations(n), _ => EndTag), pos))
    decreases Iterations(n)
  {
    hide ParseTagsAt, ParseTypeAt;
    if n <= 0 {
      ParseTagsStop(0x00, n, data, pos, acc);
      assert acc + seq(Iterations(n), _ => EndTag) == acc;
    } else {
      ParseEnd(data, pos);
      ParseTagsStep(0x00, n, data, pos, acc, Decoded(EndTag, pos));
      ParseEndTags(n - 1, data, pos, acc + [EndTag]);
      assert (acc + [EndTag]) + seq(Iterations(n - 1), _ => EndTag) == acc + seq(Iterations(n), _ => EndTag);
    }
  }

  /**
   * A list with element type `0x00` is its header alone, read as `max(L, 0)`
   * `EndTag`s for its length `L`.
   */
  lemma ParseListOfEnd(data: seq<u8>, pos: nat)
    requires pos + 5 <= |data| && data[pos] == 0x00
    ensures ParseListAt(data, pos) == Ok(Decoded(seq(Iterations(LengthAt(data, pos + 1)), _ => EndTag), pos + 5))
  {
    hide ParseListAt, ParseTagsAt;
    ParseListFields(data, pos);
    ParseEndTags(LengthAt(data, pos + 1), data, pos + 5, []);
    assert [] + seq(Iterations(LengthAt(data, pos + 1)), _ => EndTag) == seq(Iterations(LengthAt(data, pos + 1)), _ => EndTag);
  }

  /** A list header cut short is an `IoError`; a negative length is an empty list after the header. */
  lemma ParseListHeader(data: seq<u8>, pos: nat)
    requires pos <= |data|
    ensures |data| < pos + 5 ==> ParseListAt(data, pos) == Err(IoError)
    ensures pos + 5 <= |data| && LengthAt(data, pos + 1) < 0 ==> ParseListAt(data, pos) == Ok(Decoded([], pos + 5))
  {
    if pos + 5 <= |data| {
      ParseListFields(data, pos);
    }
  }

  /**
   * Outside the two containers, `InvalidType` is exactly the codes with no
   * case: the array codes `0x07`, `0x0B`, `0x0C` and everything above.
   */
  lemma ParseUnsupported(ty: u8, data: seq<u8>, pos: nat)
    requires pos <= |data| && ty != 0x09 && ty != 0x0A
    ensures ParseTypeAt(ty, data, pos) == Err(InvalidType) <==> (ty == 0x07 || 0x0B <= ty)
  {
    hide ParseStringAt, ParseListAt, ParseEntriesAt, ReadSignedAt, ReadUnsignedAt;
  }

  /** The legacy tag holding the same number as a reader tag. */
  function FromScalar(t: NbtTag.Tag): Tag
    requires t.ByteTag? || t.ShortTag? || t.IntTag? || t.LongTag? || t.FloatTag? || t.DoubleTag?
  {
    match t
    case ByteTag(v) => ByteTag(v)
    case ShortTag(v) => ShortTag(v)
    case IntTag(v) => IntTag(v)
    case LongTag(v) => LongTag(v)
    case FloatTag(v) => FloatTag(v)
    case DoubleTag(v) => DoubleTag(v)
  }

  /**
   * Numbers take exactly their width in bytes and decode big-endian, as in
   * the reader; a short read is an `IoError`.
   */
  lemma ParseScalar(ty: u8, data: seq<u8>, pos: nat)
    requires 0x01 <= ty <= 0x06 && pos <= |data|
    ensures var w := NbtReadFacts.ScalarWidth(ty);
      var r := ParseTypeAt(ty, data, pos);
      && (r.Ok? <==> pos + w <= |data|)
      && (r.Ok? ==> r.value == Decoded(FromScalar(NbtReadFacts.ScalarOf(ty, data[pos..pos + w])), pos + w))
      && (r.Err? ==> r.error == IoError)
  {
    Pow256Widths();
  }

  /**
   * A string is parsed when its length and bytes are present and the bytes
   * are UTF-8, and is then exactly those bytes; bytes that are present but not
   * UTF-8 give `InvalidUtf8`, and missing bytes give `IoError`.
   */
  lemma ParseStringContent(data: seq<u8>, pos: nat)
    requires pos <= |data|
    ensures var r := ParseStringAt(data, pos);
      var present := pos + 2 <= |data| && pos + 2 + StringLengthAt(data, pos) <= |data|;
      && (r.Ok? <==> present && IsUtf8(data[pos + 2..pos + 2 + StringLengthAt(data, pos)]))
      && (r.Ok? ==> var end := pos + 2 + StringLengthAt(data, pos);
            r.value == Decoded(data[pos + 2..end], end))
      && (r == Err(InvalidUtf8) <==> present && !IsUtf8(data[pos + 2..pos + 2 + StringLengthAt(data, pos)]))
      && (r == Err(IoError) <==> !present)
  {
  }

  /** An entry whose name bytes are not UTF-8 stops the compound with `InvalidUtf8`. */
  lemma ParseEntryBadName(data: seq<u8>, pos: nat, acc: map<seq<u8>, Tag>)
    requires pos + 3 <= |data| && data[pos] != 0x00
    requires pos + 3 + StringLengthAt(data, pos + 1) <= |data|
    requires !IsUtf8(data[pos + 3..pos + 3 + StringLengthAt(data, pos + 1)])
    ensures ParseEntriesAt(data, pos, acc) == Err(InvalidUtf8)
  {
    hide ParseTypeAt, ParseStringAt, ReadSignedAt, ReadUnsignedAt, EatAt;
    ParseStringContent(data, pos + 1);
  }

  /** A name length or name cut off by the end of input is `IoError`. */
  lemma ParseEntryTruncated(data: seq<u8>, pos: nat, acc: map<seq<u8>, Tag>)
    requires pos < |data| && data[pos] != 0x00
    requires |data| < pos + 3 || |data| < pos + 3 + StringLengthAt(data, pos + 1)
    ensures ParseEntriesAt(data, pos, acc) == Err(IoError)
  {
    hide ParseTypeAt, ParseStringAt, ReadSignedAt, ReadUnsignedAt, EatAt;
    ParseStringContent(data, pos + 1);
  }

  // ---------------------------------------------------------------------------
  // Whole documents, and where the parser and the reader part ways

  /** The one-byte name `a`, as a string header and its byte. */
  lemma ParseNameA(data: seq<u8>, pos: nat)
    requires pos + 3 <= |data| && data[pos..pos + 3] == [0x00, 0x01, 0x61]
    ensures ParseStringAt(data, pos) == Ok(Decoded([0x61], pos + 3))
  {
    var h := data[pos..pos + 3];
    assert data[pos] == h[0] && data[pos + 1] == h[1] && data[pos + 2] == h[2];
    assert data[pos..pos + 2] == [0x00, 0x01] && data[pos + 2..pos + 3] == [0x61];
    assert [0x00, 0x01][..1] == [0x00];
    assert FromBE([0x00, 0x01]) == 1;
    var name: seq<u8> := [0x61];
    assert IsUtf8(name[1..]);
  }

  /**
   * Like the reader, the parser starts inside a compound body: `0A 00 00 00`
   * is a compound holding one empty-named, empty compound.
   */
  lemma ParseRootHeader()
    ensures ParseDocument([0x0A, 0x00, 0x00, 0x00]) == Ok(CompoundTag(map[[] := CompoundTag(map[])]))
  {
    hide ParseTypeAt, ParseEntriesAt;
    var data: seq<u8> := [0x0A, 0x00, 0x00, 0x00];
    assert data[1..3] == [0x00, 0x00];
    assert ParseStringAt(data, 1) == Ok(Decoded([], 3));
    ParseEntriesStop(data, 3, map[]);
    ParseTypeOfCompound(data, 3, map[], 4);
    ParseEntriesStep(data, 0, map[], Decoded([], 3), Decoded(CompoundTag(map[]), 4));
    ParseEntriesStop(data, 4, map[[] := CompoundTag(map[])]);
    ParseTypeOfCompound(data, 0, map[[] := CompoundTag(map[])], 4);
  }

  /** The bytes `00 00 00 02` are the `i32` length 2. */
  lemma LengthTwo(data: seq<u8>, pos: nat)
    requires pos + 4 <= |data| && data[pos..pos + 4] == [0x00, 0x00, 0x00, 0x02]
    ensures LengthAt(data, pos) == 2
  {
    var bs: seq<u8> := [0x00, 0x00, 0x00, 0x02];
    assert bs[..3][..2][..1][..0] == [];
    assert FromBE(bs[..3][..2][..1]) == 0;
    assert FromBE(bs[..3][..2]) == 0;
    assert FromBE(bs[..3]) == 0;
    assert FromBE(bs) == 2;
    Pow256Widths();
  }

  lemma ParseStringEntryFails(data: seq<u8>)
    requires data == [0x08, 0x00, 0x01, 0x61, 0x00, 0x01, 0xFF]
    ensures ParseDocument(data) == Err(InvalidUtf8)
  {
    hide ParseTypeAt, ParseEntriesAt;
    assert data[1] == 0x00 && data[2] == 0x01 && data[3] == 0x61;
    assert data[1..4] == [0x00, 0x01, 0x61];
    ParseNameA(data, 1);
    assert data[4..6] == [0x00, 0x01] && data[6..7] == [0xFF];
    assert [0x00, 0x01][..1] == [0x00];
    assert FromBE([0x00, 0x01]) == 1;
    assert !IsUtf8([0xFF]);
    assert ParseStringAt(data, 4) == Err(InvalidUtf8);
    ParseTypeOfBadString(data, 4);
    ParseEntriesFail(data, 0, map[], Decoded([0x61], 4));
    ParseTypeOfBadCompound(data, 0);
  }

  lemma ReadStringEntryReplaced(data: seq<u8>)
    requires data == [0x08, 0x00, 0x01, 0x61, 0x00, 0x01, 0xFF]
    ensures NbtRead.ReadDocument(data) == Ok(NbtTag.CompoundTag(map[[0x61] := NbtTag.StringTag(Replacement)]))
  {
    hide NbtRead.ReadTypeAt, NbtRead.ReadEntriesAt;
    assert data[1..3] == [0x00, 0x01] && data[3..4] == [0x61];
    assert data[4..6] == [0x00, 0x01] && data[6..7] == [0xFF];
    assert [0x00, 0x01][..1] == [0x00];
    assert FromBE([0x00, 0x01]) == 1;
    var name: seq<u8> := [0x61];
    assert IsUtf8(name[1..]);
    LossyOfInvalidByte();
    assert NbtRead.ReadStringAt(data, 4) == Ok(Decoded(Replacement, 7));
    NbtRead.ReadTypeOfString(data, 4, Replacement, 7);
    NbtRead.ReadEntriesStep(data, 0, map[], name, Decoded(NbtTag.StringTag(Replacement), 7));
    NbtRead.ReadEntriesStop(data, 7, map[name := NbtTag.StringTag(Replacement)]);
    NbtRead.ReadTypeOfCompound(data, 0, map[name := NbtTag.StringTag(Replacement)], 7);
  }

  /**
   * A string entry `a` holding the lone byte `FF`: the parser rejects it with
   * `InvalidUtf8`, the reader replaces the byte with U+FFFD.
   */
  lemma StrictVersusLossy()
    ensures ParseDocument([0x08, 0x00, 0x01, 0x61, 0x00, 0x01, 0xFF]) == Err(InvalidUtf8)
    ensures NbtRead.ReadDocument([0x08, 0x00, 0x01, 0x61, 0x00, 0x01, 0xFF])
         == Ok(NbtTag.CompoundTag(map[[0x61] := NbtTag.StringTag(Replacement)]))
  {
    ParseStringEntryFails([0x08, 0x00, 0x01, 0x61, 0x00, 0x01, 0xFF]);
    ReadStringEntryReplaced([0x08, 0x00, 0x01, 0x61, 0x00, 0x01, 0xFF]);
  }

  lemma ParseEndListEntry(data: seq<u8>)
    requires data == [0x09, 0x00, 0x01, 0x61, 0x00, 0x00, 0x00, 0x00, 0x02]
    ensures ParseDocument(data) == Ok(CompoundTag(map[[0x61] := ListTag([EndTag, EndTag])]))
  {
    hide ParseTypeAt, ParseEntriesAt, ParseListAt;
    assert data[1] == 0x00 && data[2] == 0x01 && data[3] == 0x61;
    assert data[1..4] == [0x00, 0x01, 0x61];
    ParseNameA(data, 1);
    assert data[5..9] == [0x00, 0x00, 0x00, 0x02];
    LengthTwo(data, 5);
    ParseListOfEnd(data, 4);
    assert seq(2, _ => EndTag) == [EndTag, EndTag];
    ParseTypeOfList(data, 4, [EndTag, EndTag], 9);
    ParseEntriesStep(data, 0, map[], Decoded([0x61], 4), Decoded(ListTag([EndTag, EndTag]), 9));
    ParseEntriesStop(data, 9, map[[0x61] := ListTag([EndTag, EndTag])]);
    ParseTypeOfCompound(data, 0, map[[0x61] := ListTag([EndTag, EndTag])], 9);
  }

  lemma ReadEndListEntry(data: seq<u8>)
    requires data == [0x09, 0x00, 0x01, 0x61, 0x00, 0x00, 0x00, 0x00, 0x02]
    ensures NbtRead.ReadDocument(data) == Err(NbtTag.InvalidType)
  {
    hide NbtRead.ReadTypeAt, NbtRead.ReadEntriesAt, NbtRead.ReadListAt;
    assert data[1..3] == [0x00, 0x01] && data[3..4] == [0x61];
    assert [0x00, 0x01][..1] == [0x00];
    assert FromBE([0x00, 0x01]) == 1;
    var name: seq<u8> := [0x61];
    assert IsUtf8(name[1..]);
    assert data[5..9] == [0x00, 0x00, 0x00, 0x02];
    LengthTwo(data, 5);
    NbtReadFacts.ReadListOfEnd(data, 4);
    NbtRead.ReadTypeOfBadList(data, 4);
    NbtRead.ReadEntriesFail(data, 0, map[], name);
    NbtRead.ReadTypeOfBadCompound(data, 0);
  }

  /**
   * A list entry `a` of element type `0x00` and length 2: the parser reads
   * two `EndTag`s, the reader rejects the element type with `InvalidType`.
   */
  lemma EndListVersusReader()
    ensures ParseDocument([0x09, 0x00, 0x01, 0x61, 0x00, 0x00, 0x00, 0x00, 0x02])
         == Ok(CompoundTag(map[[0x61] := ListTag([EndTag, EndTag])]))
    ensures NbtRead.ReadDocument([0x09, 0x00, 0x01, 0x61, 0x00, 0x00, 0x00, 0x00, 0x02])
         == Err(NbtTag.InvalidType)
  {
    ParseEndListEntry([0x09, 0x00, 0x01, 0x61, 0x00, 0x00, 0x00, 0x00, 0x02]);
    ReadEndListEntry([0x09, 0x00, 0x01, 0x61, 0x00, 0x00, 0x00, 0x00, 0x02]);
  }

  // ---------------------------------------------------------------------------
  // The parser over a stream

  /** `Tag::parse`: the stream is a compound body; no root type byte or name is consumed. */
  method Parse(src: Source) returns (r: Result<Tag, ParseError>)
    requires src.Valid()
    modifies src
    ensures src.Valid()
    ensures Located(r, src.pos) == ParseTypeAt(0x0A, src.data, old(src.pos))
  {
    r := ParseType(0x0A, src);
  }

  /** `parse_type`: dispatch on the type code. */
  method ParseType(ty: u8, src: Source) returns (r: Result<Tag, ParseError>)
    requires src.Valid()
    modifies src
    ensures src.Valid()
    ensures Located(r, src.pos) == ParseTypeAt(ty, src.data, old(src.pos))
    decreases |src.data| - src.pos, 3
  {
    Pow256Widths();
    if ty == 0x00 {
      r := Ok(EndTag);
    } else if ty == 0x01 {
      var v := src.ReadSigned(1);
      r := if v.Some? then Ok(ByteTag(v.value)) else Err(IoError);
    } else if ty == 0x02 {
      var v := src.ReadSigned(2);
      r := if v.Some? then Ok(ShortTag(v.value)) else Err(IoError);
    } else if ty == 0x03 {
      var v := src.ReadSigned(4);
      r := if v.Some? then Ok(IntTag(v.value)) else Err(IoError);
    } else if ty == 0x04 {
      var v := src.ReadSigned(8);
      r := if v.Some? then Ok(LongTag(v.value)) else Err(IoError);
    } else if ty == 0x05 {
      var v := src.ReadUnsigned(4);
      r := if v.Some? then Ok(FloatTag(v.value)) else Err(IoError);
    } else if ty == 0x06 {
      var v := src.ReadUnsigned(8);
      r := if v.Some? then Ok(DoubleTag(v.value)) else Err(IoError);
    } else if ty == 0x08 {
      var s := ParseString(src);
      r := if s.Ok? then Ok(StringTag(s.value)) else Err(s.error);
    } else if ty == 0x09 {
      var xs := ParseList(src);
      r := if xs.Ok? then Ok(ListTag(xs.value)) else Err(xs.error);
    } else if ty == 0x0A {
      var m := ParseCompound(src);
      r := if m.Ok? then Ok(CompoundTag(m.value)) else Err(m.error);
    } else {
      r := Err(InvalidType);
    }
  }

  /** The string case, also used for names: a `u16` length, `eat` that many bytes, `String::from_utf8`. */
  method ParseString(src: Source) returns (r: Result<seq<u8>, ParseError>)
    requires src.Valid()
    modifies src
    ensures src.Valid()
    ensures Located(r, src.pos) == ParseStringAt(src.data, old(src.pos))
  {
    var n := src.ReadUnsigned(2);
    if n.None? {
      return Err(IoError);
    }
    var bs := src.Eat(n.value);
    if bs.None? {
      return Err(IoError);
    }
    if !IsUtf8(bs.value) {
      return Err(InvalidUtf8);
    }
    r := Ok(bs.value);
  }

  /** The list case: element type, length, then one `parse_type` per element. */
  method ParseList(src: Source) returns (r: Result<seq<Tag>, ParseError>)
    requires src.Valid()
    modifies src
    ensures src.Valid()
    ensures Located(r, src.pos) == ParseListAt(src.data, old(src.pos))
    decreases |src.data| - src.pos, 2
  {
    var ty := src.ReadU8();
    if ty.None? {
      return Err(IoError);
    }
    var n := src.ReadSigned(4);
    if n.None? {
      return Err(IoError);
    }
    ghost var start := src.pos;
    var result: seq<Tag> := [];
    var i := 0;
    while i < n.value
      invariant src.Valid() && start <= src.pos && 0 <= i
      invariant ParseTagsAt(ty.value, n.value, src.data, start, [])
             == ParseTagsAt(ty.value, n.value - i, src.data, src.pos, result)
      decreases n.value - i
    {
      var e := ParseType(ty.value, src);
      if e.Err? {
        return Err(e.error);
      }
      result := result + [e.value];
      i := i + 1;
    }
    r := Ok(result);
  }

  /** The compound case: the entry loop, ended by a `0x00` or an unreadable type byte. */
  method ParseCompound(src: Source) returns (r: Result<map<seq<u8>, Tag>, ParseError>)
    requires src.Valid()
    modifies src
    ensures src.Valid()
    ensures Located(r, src.pos) == ParseEntriesAt(src.data, old(src.pos), map[])
    decreases |src.data| - src.pos, 1
  {
    ghost var start := src.pos;
    var result: map<seq<u8>, Tag> := map[];
    while true
      invariant src.Valid() && start <= src.pos
      invariant ParseEntriesAt(src.data, start, map[]) == ParseEntriesAt(src.data, src.pos, result)
      decreases |src.data| - src.pos
    {
      ghost var here := src.pos;
      var b := src.ReadU8();
      var ty := if b.Some? then b.value else 0x00;
      if ty == 0x00 {
        assert ParseEntriesAt(src.data, here, result) == Ok(Decoded(result, src.pos));
        return Ok(result);
      }
      var name := ParseString(src);
      if name.Err? {
        return Err(name.error);
      }
      var v := ParseType(ty, src);
      if v.Err? {
        return Err(v.error);
      }
      result := result[name.value := v.value];
    }
  }
}
