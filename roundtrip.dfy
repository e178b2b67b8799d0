/**
 * Writing a tree and reading it back. The writer and the reader agree on
 * every tree the wire format can carry: read_type(get_type(t)) after
 * write_element(t) gives `t` back and stops right after its payload, and a
 * document written by `Tag::write` is read back by `Tag::read`.
 */
module NbtRoundTrip {
  import opened Bytes
  import opened Results
  import opened Utf8
  import opened Stream
  import opened NbtTag
  import opened NbtRead
  import opened NbtWrite

  /**
   * The structure the wire format can carry: lengths that fit an `i32`,
   * UTF-8 text and names, names of at most 65535 bytes, and lists whose
   * elements all have the type of the first (the only type byte written).
   */
  predicate Shaped(t: Tag)
    decreases t
  {
    match t
    case ByteArray(v) => |v| < 0x8000_0000
    case IntArray(v) => |v| < 0x8000_0000
    case LongArray(v) => |v| < 0x8000_0000
    case StringTag(s) => IsUtf8(s)
    case ListTag(xs) =>
      && |xs| < 0x8000_0000
      && forall i | 0 <= i < |xs| :: TypeCode(xs[i]) == TypeCode(xs[0]) && Shaped(xs[i])
    case CompoundTag(m) =>
      forall k | k in m :: |k| <= 0xFFFF && IsUtf8(k) && Shaped(m[k])
    case _ => true
  }

  /** Every string value in the tree has at most `max` bytes. */
  predicate TextsFit(t: Tag, max: nat)
    decreases t
  {
    match t
    case StringTag(s) => |s| <= max
    case ListTag(xs) => forall i | 0 <= i < |xs| :: TextsFit(xs[i], max)
    case CompoundTag(m) => forall k | k in m :: TextsFit(m[k], max)
    case _ => true
  }

  /** A tree the writer encodes faithfully: shaped, and every string fits a `u16` length. */
  predicate WellFormed(t: Tag) {
    Shaped(t) && TextsFit(t, 0xFFFF)
  }

  /** The entries of `m` named by `keys`. */
  function Pick(m: map<seq<u8>, Tag>, keys: seq<seq<u8>>): (r: map<seq<u8>, Tag>)
    requires forall i | 0 <= i < |keys| :: keys[i] in m
    ensures forall k :: k in r <==> k in keys
    ensures forall k | k in r :: r[k] == m[k]
  {
    map k | k in keys :: m[k]
  }

  /** Picking every key of an enumeration gives the map back. */
  lemma PickAll(m: map<seq<u8>, Tag>, keys: seq<seq<u8>>)
    requires Enumerates(keys, m)
    ensures Pick(m, keys) == m && map[] + Pick(m, keys) == m
  {
  }

  /** The elements of an array come back in order, each from its `w` bytes. */
  lemma {:induction false} ReadOfArrayBytes(v: seq<int>, w: nat, data: seq<u8>, pos: nat, acc: seq<int>)
    requires 1 <= w && forall i | 0 <= i < |v| :: Fits(v[i], w)
    requires IsAt(data, pos, ArrayBytes(v, w))
    ensures ReadElementsAt(data, pos, w, |v|, acc) == Ok(Decoded(acc + v, pos + |ArrayBytes(v, w)|))
    decreases |v|
  {
    hide ReadElementsAt, ReadSignedAt;
    if v == [] {
      ReadElementsStop(data, pos, w, |v|, acc);
      assert acc + v == acc;
    } else {
      var rest := ArrayBytes(v[1..], w);
      assert ArrayBytes(v, w) == ToBE(v[0], w) + rest;
      IsAtSplit(data, pos, ToBE(v[0], w), rest);
      ReadSignedOfEncoding(data, pos, v[0], w);
      ReadElementsStep(data, pos, w, |v|, acc, v[0]);
      ReadOfArrayBytes(v[1..], w, data, pos + w, acc + [v[0]]);
      Cons(acc, v);
      assert pos + w + |rest| == pos + |ArrayBytes(v, w)|;
    }
  }

  /** A written array (length, then elements) is read back whole. */
  lemma ReadOfArrayPayload(v: seq<int>, w: nat, data: seq<u8>, pos: nat)
    requires 1 <= w && |v| < 0x8000_0000 && forall i | 0 <= i < |v| :: Fits(v[i], w)
    requires IsAt(data, pos, ArrayPayload(v, w))
    ensures ReadArrayAt(data, pos, w) == Ok(Decoded(v, pos + |ArrayPayload(v, w)|))
  {
    hide ReadArrayAt, ReadElementsAt, ReadSignedAt, ArrayBytes, ToBE;
    Pow256Widths();
    IsAtSplit(data, pos, ToBE(|v|, 4), ArrayBytes(v, w));
    ReadSignedOfEncoding(data, pos, |v|, 4);
    ReadArrayFields(data, pos, w);
    ReadOfArrayBytes(v, w, data, pos + 4, []);
    assert [] + v == v;
  }

  /** A written UTF-8 string of at most 65535 bytes is read back unchanged. */
  lemma ReadOfString(s: seq<u8>, data: seq<u8>, pos: nat)
    requires |s| <= 0xFFFF && IsUtf8(s)
    requires IsAt(data, pos, StringBytes(s))
    ensures ReadStringAt(data, pos) == Ok(Decoded(s, pos + |StringBytes(s)|))
  {
    hide *;
    StringPrefix(s);
    StringFields(s, data, pos);
    ReadStringOfFields(data, pos, s);
    LossyOfValid(s);
  }

  /** A written string's length field and bytes, as the reader finds them. */
  lemma StringFields(s: seq<u8>, data: seq<u8>, pos: nat)
    requires |s| <= 0xFFFF && IsAt(data, pos, StringBytes(s))
    ensures ReadUnsignedAt(data, pos, 2) == Some(Decoded(|s|, pos + 2))
    ensures EatAt(data, pos + 2, |s|) == Some(Decoded(s, pos + 2 + |s|))
  {
    IsAtSplit(data, pos, ToBE(|s|, 2), s);
    ReadUnsignedOfEncoding(data, pos, |s|, 2);
    Pow256Widths();
  }

  lemma ReadStringOfFields(data: seq<u8>, pos: nat, s: seq<u8>)
    requires pos <= |data|
    requires ReadUnsignedAt(data, pos, 2) == Some(Decoded(|s|, pos + 2))
    requires EatAt(data, pos + 2, |s|) == Some(Decoded(s, pos + 2 + |s|))
    ensures ReadStringAt(data, pos) == Ok(Decoded(Lossy(s), pos + 2 + |s|))
  {
  }

  /** `read_type(get_type(t))` after `write_element(t)` gives `t` and stops right after the payload. */
  lemma {:induction false} ReadOfPayload(t: Tag, ord: Order, data: seq<u8>, pos: nat)
    requires ValidOrder(ord) && WellFormed(t)
    requires IsAt(data, pos, Payload(t, ord))
    ensures ReadTypeAt(TypeCode(t), data, pos) == Ok(Decoded(t, pos + |Payload(t, ord)|))
    decreases t, 2
  {
    hide ReadTypeAt, WellFormed, ListPayload, EntriesBytes;
    match t
    case ListTag(xs) => ReadOfListTag(xs, ord, data, pos);
    case CompoundTag(m) => ReadOfCompoundTag(t, ord, data, pos);
    case _ => ReadOfLeaf(t, ord, data, pos);
  }

  /** The payloads without nested tags: numbers, typed arrays and strings. */
  lemma ReadOfLeaf(t: Tag, ord: Order, data: seq<u8>, pos: nat)
    requires ValidOrder(ord) && WellFormed(t) && !t.ListTag? && !t.CompoundTag?
    requires IsAt(data, pos, Payload(t, ord))
    ensures ReadTypeAt(TypeCode(t), data, pos) == Ok(Decoded(t, pos + |Payload(t, ord)|))
  {
    hide *;
    if t.ByteArray? || t.IntArray? || t.LongArray? {
      ReadOfArrayTag(t, ord, data, pos);
    } else if t.StringTag? {
      ReadOfStringTag(t, ord, data, pos);
    } else {
      ReadOfNumber(t, ord, data, pos);
    }
  }

  /** A number: its big-endian bytes at the width of its type. */
  lemma ReadOfNumber(t: Tag, ord: Order, data: seq<u8>, pos: nat)
    requires ValidOrder(ord)
    requires t.ByteTag? || t.ShortTag? || t.IntTag? || t.LongTag? || t.FloatTag? || t.DoubleTag?
    requires IsAt(data, pos, Payload(t, ord))
    ensures ReadTypeAt(TypeCode(t), data, pos) == Ok(Decoded(t, pos + |Payload(t, ord)|))
  {
    hide ReadTypeAt, ReadSignedAt, ReadUnsignedAt;
    Pow256Widths();
    match t
    case ByteTag(v) =>
      ReadSignedOfEncoding(data, pos, v, 1);
      ReadTypeOfByte(data, pos, v, pos + 1);
    case ShortTag(v) =>
      ReadSignedOfEncoding(data, pos, v, 2);
      ReadTypeOfShort(data, pos, v, pos + 2);
    case IntTag(v) =>
      ReadSignedOfEncoding(data, pos, v, 4);
      ReadTypeOfInt(data, pos, v, pos + 4);
    case LongTag(v) =>
      ReadSignedOfEncoding(data, pos, v, 8);
      ReadTypeOfLong(data, pos, v, pos + 8);
    case FloatTag(v) =>
      ReadUnsignedOfEncoding(data, pos, v, 4);
      ReadTypeOfFloat(data, pos, v, pos + 4);
    case DoubleTag(v) =>
      ReadUnsignedOfEncoding(data, pos, v, 8);
      ReadTypeOfDouble(data, pos, v, pos + 8);
  }

  /** A typed array: its `i32` length, then its elements. */
  lemma ReadOfArrayTag(t: Tag, ord: Order, data: seq<u8>, pos: nat)
    requires ValidOrder(ord) && WellFormed(t) && (t.ByteArray? || t.IntArray? || t.LongArray?)
    requires IsAt(data, pos, Payload(t, ord))
    ensures ReadTypeAt(TypeCode(t), data, pos) == Ok(Decoded(t, pos + |Payload(t, ord)|))
  {
    hide ReadTypeAt, ReadArrayAt, ArrayPayload;
    Pow256Widths();
    match t
    case ByteArray(v) =>
      ReadOfArrayPayload(v, 1, data, pos);
      ReadTypeOfByteArray(data, pos, v, pos + |ArrayPayload(v, 1)|);
    case IntArray(v) =>
      ReadOfArrayPayload(v, 4, data, pos);
      ReadTypeOfIntArray(data, pos, v, pos + |ArrayPayload(v, 4)|);
    case LongArray(v) =>
      ReadOfArrayPayload(v, 8, data, pos);
      ReadTypeOfLongArray(data, pos, v, pos + |ArrayPayload(v, 8)|);
  }

  /** A string value. */
  lemma ReadOfStringTag(t: Tag, ord: Order, data: seq<u8>, pos: nat)
    requires ValidOrder(ord) && WellFormed(t) && t.StringTag?
    requires IsAt(data, pos, Payload(t, ord))
    ensures ReadTypeAt(TypeCode(t), data, pos) == Ok(Decoded(t, pos + |Payload(t, ord)|))
  {
    hide ReadTypeAt, ReadStringAt, StringBytes;
    ReadOfString(t.text, data, pos);
    ReadTypeOfString(data, pos, t.text, pos + |StringBytes(t.text)|);
  }

  /** A nested compound: its entries, then the `0x00` that ends the loop. */
  lemma {:induction false} ReadOfCompoundTag(t: Tag, ord: Order, data: seq<u8>, pos: nat)
    requires ValidOrder(ord) && t.CompoundTag? && WellFormed(t)
    requires IsAt(data, pos, Payload(t, ord))
    ensures ReadTypeAt(0x0A, data, pos) == Ok(Decoded(t, pos + |Payload(t, ord)|))
    decreases t, 1
  {
    hide ReadTypeAt, ReadEntriesAt, EntriesBytes, WellFormed, RootBytes;
    var m := t.entries;
    var body := EntriesBytes(t, ord(m), ord);
    NestedCompoundTerminated(t, ord);
    IsAtSplit(data, pos, body, [0x00]);
    assert Enumerates(ord(m), m);
    ReadOfEntries(t, ord(m), ord, data, pos, map[]);
    PickAll(m, ord(m));
    ReadTypeOfCompound(data, pos, m, pos + |body| + 1);
  }

  /** A written list: its type byte and length are read back, then every element. */
  lemma {:induction false} ReadOfListTag(xs: seq<Tag>, ord: Order, data: seq<u8>, pos: nat)
    requires ValidOrder(ord) && WellFormed(ListTag(xs))
    requires IsAt(data, pos, ListPayload(xs, ord))
    ensures ReadTypeAt(0x09, data, pos) == Ok(Decoded(ListTag(xs), pos + |ListPayload(xs, ord)|))
    decreases xs, 1
  {
    hide *;
    ElementsShaped(xs);
    ReadListHeader(xs, ord, data, pos);
    ReadOfListPayloads(xs, ListTypeCode(xs), ord, data, pos + 5, []);
    assert [] + xs == xs;
    ReadTypeOfList(data, pos, xs, pos + |ListPayload(xs, ord)|);
  }

  /** The header of a written list, as the reader finds it. */
  lemma ReadListHeader(xs: seq<Tag>, ord: Order, data: seq<u8>, pos: nat)
    requires ValidOrder(ord) && |xs| < 0x8000_0000
    requires IsAt(data, pos, ListPayload(xs, ord))
    ensures |ListPayload(xs, ord)| == 5 + |ListPayloads(xs, ord)|
    ensures IsAt(data, pos + 5, ListPayloads(xs, ord))
    ensures ReadListAt(data, pos) == ReadTagsAt(ListTypeCode(xs), |xs|, data, pos + 5, [])
  {
    hide ReadListAt, ReadTagsAt, ReadTypeAt, ReadSignedAt, ListPayloads, Payload, ToBE, ListTypeCode;
    var c := ListTypeCode(xs);
    var h := ToBE(|xs|, 4);
    IsAtSplit(data, pos, [c] + h, ListPayloads(xs, ord));
    IsAtSplit(data, pos, [c], h);
    assert data[pos] == c;
    Pow256Widths();
    ReadSignedOfEncoding(data, pos + 1, |xs|, 4);
    ReadListFields(data, pos, c, |xs|);
  }

  /** The elements of a shaped list are shaped and share the list's element type byte. */
  lemma ElementsShaped(xs: seq<Tag>)
    requires WellFormed(ListTag(xs))
    ensures |xs| < 0x8000_0000
    ensures forall i | 0 <= i < |xs| :: WellFormed(xs[i]) && TypeCode(xs[i]) == ListTypeCode(xs)
  {
  }

  /** The list loop reads back `|xs|` payloads of the one element type. */
  lemma {:induction false} ReadOfListPayloads(xs: seq<Tag>, ty: u8, ord: Order, data: seq<u8>, pos: nat, acc: seq<Tag>)
    requires ValidOrder(ord)
    requires forall i | 0 <= i < |xs| :: WellFormed(xs[i]) && TypeCode(xs[i]) == ty
    requires IsAt(data, pos, ListPayloads(xs, ord))
    ensures ReadTagsAt(ty, |xs|, data, pos, acc) == Ok(Decoded(acc + xs, pos + |ListPayloads(xs, ord)|))
    decreases xs, 0
  {
    hide ReadTypeAt, Payload, WellFormed;
    if xs == [] {
      assert acc + xs == acc;
    } else {
      var p := Payload(xs[0], ord);
      var rest := ListPayloads(xs[1..], ord);
      assert ListPayloads(xs, ord) == p + rest;
      IsAtSplit(data, pos, p, rest);
      ReadOfPayload(xs[0], ord, data, pos);
      ReadTagsStep(ty, |xs|, data, pos, acc, Decoded(xs[0], pos + |p|));
      ReadOfListPayloads(xs[1..], ty, ord, data, pos + |p|, acc + [xs[0]]);
      assert |xs[1..]| == |xs| - 1;
      Cons(acc, xs);
    }
  }

  /**
   * The entry loop reads back the entries named by `keys`, in that order, and
   * stops at the terminator (or the end of input) right after them.
   */
  lemma {:induction false} ReadOfEntries(parent: Tag, keys: seq<seq<u8>>, ord: Order, data: seq<u8>, pos: nat,
                                          acc: map<seq<u8>, Tag>)
    requires ValidOrder(ord) && parent.CompoundTag? && WellFormed(parent)
    requires forall i | 0 <= i < |keys| :: keys[i] in parent.entries
    requires IsAt(data, pos, EntriesBytes(parent, keys, ord))
    requires EndsAt(data, pos + |EntriesBytes(parent, keys, ord)|)
    ensures ReadEntriesAt(data, pos, acc)
         == Ok(Decoded(acc + Pick(parent.entries, keys), After(data, pos + |EntriesBytes(parent, keys, ord)|)))
    decreases parent, 0, |keys|
  {
    hide *;
    EntriesBytesCons(parent, keys, ord);
    PickCons(parent.entries, keys, acc);
    var m := parent.entries;
    if keys == [] {
      ReadEntriesStop(data, pos, acc);
    } else {
      var k := keys[0];
      var e := EntryBytes(k, m[k], ord);
      var rest := EntriesBytes(parent, keys[1..], ord);
      IsAtSplit(data, pos, e, rest);
      ReadOfEntry(parent, k, ord, data, pos, acc);
      ReadOfEntries(parent, keys[1..], ord, data, pos + |e|, acc[k := m[k]]);
    }
  }

  /** Inserting the entries named by `keys` one at a time, as the entry loop does. */
  lemma PickCons(m: map<seq<u8>, Tag>, keys: seq<seq<u8>>, acc: map<seq<u8>, Tag>)
    requires forall i | 0 <= i < |keys| :: keys[i] in m
    ensures keys == [] ==> acc + Pick(m, keys) == acc
    ensures keys != [] ==> acc[keys[0] := m[keys[0]]] + Pick(m, keys[1..]) == acc + Pick(m, keys)
  {
  }

  /** The bytes of a run of entries: nothing, or the first entry followed by the rest. */
  lemma EntriesBytesCons(parent: Tag, keys: seq<seq<u8>>, ord: Order)
    requires ValidOrder(ord) && parent.CompoundTag?
    requires forall i | 0 <= i < |keys| :: keys[i] in parent.entries
    ensures keys == [] ==> EntriesBytes(parent, keys, ord) == []
    ensures keys != [] ==> EntriesBytes(parent, keys, ord)
                           == EntryBytes(keys[0], parent.entries[keys[0]], ord) + EntriesBytes(parent, keys[1..], ord)
  {
  }

  /** One written entry (type code, name, payload) is read back and inserted under its name. */
  lemma {:induction false} ReadOfEntry(parent: Tag, k: seq<u8>, ord: Order, data: seq<u8>, pos: nat,
                                        acc: map<seq<u8>, Tag>)
    requires ValidOrder(ord) && parent.CompoundTag? && WellFormed(parent) && k in parent.entries
    requires IsAt(data, pos, EntryBytes(k, parent.entries[k], ord))
    ensures ReadEntriesAt(data, pos, acc)
         == ReadEntriesAt(data, pos + |EntryBytes(k, parent.entries[k], ord)|, acc[k := parent.entries[k]])
    decreases parent, 0, 0
  {
    hide *;
    var v := parent.entries[k];
    EntryShaped(parent, k);
    EntryFields(k, v, ord, data, pos);
    ReadOfPayload(v, ord, data, pos + 3 + |k|);
    ReadEntriesStep(data, pos, acc, k, Decoded(v, pos + 3 + |k| + |Payload(v, ord)|));
  }

  /** Where the parts of a written entry sit, as the entry loop reads them. */
  lemma EntryFields(k: seq<u8>, v: Tag, ord: Order, data: seq<u8>, pos: nat)
    requires ValidOrder(ord) && |k| <= 0xFFFF
    requires IsAt(data, pos, EntryBytes(k, v, ord))
    ensures |EntryBytes(k, v, ord)| == 3 + |k| + |Payload(v, ord)|
    ensures pos + 3 + |k| <= |data| && data[pos] == TypeCode(v) != 0x00
    ensures ReadUnsignedAt(data, pos + 1, 2) == Some(Decoded(|k|, pos + 3))
    ensures EatAt(data, pos + 3, |k|) == Some(Decoded(k, pos + 3 + |k|))
    ensures IsAt(data, pos + 3 + |k|, Payload(v, ord))
  {
    hide Payload, TypeCode, StringBytes, ToBE;
    StringPrefix(k);
    var c := TypeCode(v);
    IsAtSplit(data, pos, [c] + StringBytes(k), Payload(v, ord));
    IsAtSplit(data, pos, [c], StringBytes(k));
    assert data[pos] == c;
    StringFields(k, data, pos + 1);
  }

  /** The entries of a shaped compound have names that fit a `u16` length and are UTF-8, and shaped values. */
  lemma EntryShaped(parent: Tag, k: seq<u8>)
    requires parent.CompoundTag? && WellFormed(parent) && k in parent.entries
    ensures |k| <= 0xFFFF && IsUtf8(k) && WellFormed(parent.entries[k])
  {
  }

  lemma Cons<X>(acc: seq<X>, v: seq<X>)
    requires v != []
    ensures acc + [v[0]] + v[1..] == acc + v
  {
    assert v == [v[0]] + v[1..];
  }

  /** `Tag::write` then `Tag::read`: a well-formed compound comes back as it was. */
  lemma WriteThenRead(t: Tag, ord: Order)
    requires ValidOrder(ord) && t.CompoundTag? && WellFormed(t)
    ensures WriteDocument(t, ord).Ok?
    ensures ReadDocument(WriteDocument(t, ord).value) == Ok(t)
  {
    hide ReadTypeAt, ReadEntriesAt, EntriesBytes, EntryBytes, Payload, RootBytes, WellFormed;
    var m := t.entries;
    var data := RootBytes(t, ord);
    NestedCompoundTerminated(t, ord);
    assert Enumerates(ord(m), m);
    assert IsAt(data, 0, data);
    ReadOfEntries(t, ord(m), ord, data, 0, map[]);
    PickAll(m, ord(m));
    ReadTypeOfCompound(data, 0, m, |data|);
  }
}
