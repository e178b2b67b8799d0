/**
 * What the reader produces is a tree the wire format can carry: array and
 * list lengths come from an `i32`, names from a `u16`-prefixed UTF-8 check,
 * string values from a lossy (hence valid) decoding, and every list element
 * is read with the list's one type byte. So a document that reads, written
 * back and read again, reads the same, whenever its strings fit a `u16`
 * length.
 */
module NbtReadShape {
  import opened Bytes
  import opened Results
  import opened Utf8
  import opened Stream
  import opened NbtTag
  import opened NbtRead
  import opened NbtWrite
  import opened NbtReadFacts
  import opened NbtRoundTrip

  /** A tag read with any type code is shaped. */
  lemma {:induction false} ReadShaped(ty: u8, data: seq<u8>, pos: nat)
    requires pos <= |data|
    ensures ReadTypeAt(ty, data, pos).Ok? ==> Shaped(ReadTypeAt(ty, data, pos).value.value)
    decreases |data| - pos, 3, 0
  {
    Pow256Widths();
    match ty
    case 0x07 => ReadArrayShort(data, pos, 1);
    case 0x08 =>
      var r := ReadStringAt(data, pos);
      if r.Ok? {
        ReadStringContent(data, pos);
      }
    case 0x09 => ReadListShaped(data, pos);
    case 0x0A => ReadEntriesShaped(data, pos, map[]);
    case 0x0B => ReadArrayShort(data, pos, 4);
    case 0x0C => ReadArrayShort(data, pos, 8);
    case _ =>
  }

  /** An array read has fewer than 2^31 elements: its length is an `i32`. */
  lemma ReadArrayShort(data: seq<u8>, pos: nat, w: nat)
    requires pos <= |data| && 1 <= w
    ensures ReadArrayAt(data, pos, w).Ok? ==> |ReadArrayAt(data, pos, w).value.value| < 0x8000_0000
  {
    hide ReadArrayAt, ReadElementsAt, ReadSignedAt;
    Pow256Widths();
    ReadArrayFields(data, pos, w);
    var n := ReadSignedAt(data, pos, 4);
    if n.Some? {
      ReadElementsFacts(data, pos + 4, w, n.value.value, []);
    }
  }

  /** A list read is shaped: fewer than 2^31 elements, all of one type, each shaped. */
  lemma {:induction false} ReadListShaped(data: seq<u8>, pos: nat)
    requires pos <= |data|
    ensures ReadListAt(data, pos).Ok? ==> Shaped(ListTag(ReadListAt(data, pos).value.value))
    decreases |data| - pos, 2, 0
  {
    hide ReadListAt, ReadTagsAt, ReadTypeAt, ReadSignedAt, ToSigned, FromBE;
    if pos + 5 <= |data| {
      Pow256Widths();
      ReadSignedBytes(data, pos + 1, 4);
      ReadListFields(data, pos, data[pos], LengthAt(data, pos + 1));
      ReadTagsShaped(data[pos], LengthAt(data, pos + 1), data, pos + 5, []);
      ReadListContent(data, pos);
    } else {
      ReadListShort(data, pos);
    }
  }

  /** The list loop adds only shaped tags to shaped ones. */
  lemma {:induction false} ReadTagsShaped(ty: u8, n: int, data: seq<u8>, pos: nat, acc: seq<Tag>)
    requires pos <= |data|
    requires forall i | 0 <= i < |acc| :: Shaped(acc[i])
    ensures var r := ReadTagsAt(ty, n, data, pos, acc);
      r.Ok? ==> forall i | 0 <= i < |r.value.value| :: Shaped(r.value.value[i])
    decreases |data| - pos, 4, Iterations(n)
  {
    hide ReadTypeAt, ReadTagsAt, Shaped;
    if n <= 0 {
      ReadTagsStop(ty, n, data, pos, acc);
    } else {
      var e := ReadTypeAt(ty, data, pos);
      if e.Ok? {
        ReadShaped(ty, data, pos);
        ReadTagsStep(ty, n, data, pos, acc, e.value);
        var acc' := acc + [e.value.value];
        assert forall i | 0 <= i < |acc'| :: Shaped(acc'[i]) by {
          forall i | 0 <= i < |acc'|
            ensures Shaped(acc'[i])
          {
            if i < |acc| {
              assert acc'[i] == acc[i];
            }
          }
        }
        ReadTagsShaped(ty, n - 1, data, e.value.next, acc');
      } else {
        ReadTagsFail(ty, n, data, pos, acc);
      }
    }
  }

  /** The entry loop adds only shaped values under UTF-8 names of at most 65535 bytes. */
  lemma {:induction false} ReadEntriesShaped(data: seq<u8>, pos: nat, acc: map<seq<u8>, Tag>)
    requires pos <= |data| && Shaped(CompoundTag(acc))
    ensures var r := ReadEntriesAt(data, pos, acc);
      r.Ok? ==> Shaped(CompoundTag(r.value.value))
    decreases |data| - pos, 1, 0
  {
    hide ReadTypeAt, ReadEntriesAt;
    if EndsAt(data, pos) {
      ReadEntriesStop(data, pos, acc);
    } else if |data| < pos + 3 || |data| < pos + 3 + StringLengthAt(data, pos + 1) {
      ReadEntryTruncated(data, pos, acc);
    } else {
      Pow256Widths();
      var len := StringLengthAt(data, pos + 1);
      var name := data[pos + 3..pos + 3 + len];
      assert ReadUnsignedAt(data, pos + 1, 2) == Some(Decoded(|name|, pos + 3));
      if !IsUtf8(name) {
        ReadEntryBadName(data, pos, acc, name);
      } else {
        var e := ReadTypeAt(data[pos], data, pos + 3 + |name|);
        if e.Ok? {
          ReadShaped(data[pos], data, pos + 3 + |name|);
          ReadEntriesStep(data, pos, acc, name, e.value);
          ReadEntriesShaped(data, e.value.next, acc[name := e.value.value]);
        } else {
          ReadEntriesFail(data, pos, acc, name);
        }
      }
    }
  }

  /**
   * Reading, writing back and reading again gives what the first read gave,
   * for any entry order, provided every string value read fits a `u16`
   * length.
   */
  lemma ReadWriteRead(data: seq<u8>, ord: Order)
    requires ValidOrder(ord) && ReadDocument(data).Ok?
    requires TextsFit(ReadDocument(data).value, 0xFFFF)
    ensures WriteDocument(ReadDocument(data).value, ord).Ok?
    ensures ReadDocument(WriteDocument(ReadDocument(data).value, ord).value) == ReadDocument(data)
  {
    ReadShaped(0x0A, data, 0);
    ReadTypeCode(0x0A, data, 0);
    WriteThenRead(ReadDocument(data).value, ord);
  }
}
