/**
 * The writer (`Tag::write`, `write_element`, `write_string`): type code,
 * name, payload, appended to a `Sink`. `Payload` and `RootBytes` say which
 * bytes are written; the methods are proved to append exactly those.
 */
module NbtWrite {
  import opened Bytes
  import opened Results
  import opened Stream
  import opened NbtTag

  /**
   * The order in which the writer visits a compound's entries: Rust's
   * `HashMap` iteration order, which the codec does not control.
   */
  type Order = map<seq<u8>, Tag> -> seq<seq<u8>>

  /** `ks` lists every key of `m` exactly once. */
  ghost predicate Enumerates(ks: seq<seq<u8>>, m: map<seq<u8>, Tag>) {
    && (forall i, j | 0 <= i < j < |ks| :: ks[i] != ks[j])
    && (forall k :: k in m <==> k in ks)
  }

  /** Every compound is visited key by key, each key once. */
  ghost predicate ValidOrder(ord: Order) {
    forall m :: Enumerates(ord(m), m)
  }

  /** `get_type`: the type code of a tag. */
  function TypeCode(t: Tag): (c: u8)
    ensures 0x01 <= c <= 0x0C
  {
    match t
    case ByteTag(_) => 0x01
    case ShortTag(_) => 0x02
    case IntTag(_) => 0x03
    case LongTag(_) => 0x04
    case FloatTag(_) => 0x05
    case DoubleTag(_) => 0x06
    case ByteArray(_) => 0x07
    case StringTag(_) => 0x08
    case ListTag(_) => 0x09
    case CompoundTag(_) => 0x0A
    case IntArray(_) => 0x0B
    case LongArray(_) => 0x0C
  }

  /** The element type byte of a list: its first element's code, or `0x00` when empty. */
  function ListTypeCode(xs: seq<Tag>): (c: u8)
    ensures xs == [] <==> c == 0x00
  {
    if xs == [] then 0x00 else TypeCode(xs[0])
  }

  /** `write_string`: the `u16` length (cast with `as u16`), then the bytes. */
  function StringBytes(s: seq<u8>): seq<u8> {
    ToBE(|s|, 2) + s
  }

  /** The elements of a typed array, each as `w` big-endian bytes. */
  function ArrayBytes(v: seq<int>, w: nat): seq<u8> {
    if v == [] then [] else ToBE(v[0], w) + ArrayBytes(v[1..], w)
  }

  /** A typed array: its length as an `i32` (cast with `as i32`), then the elements. */
  function ArrayPayload(v: seq<int>, w: nat): seq<u8> {
    ToBE(|v|, 4) + ArrayBytes(v, w)
  }

  /** `write_element`: the payload of a tag, without its type code or name. */
  function Payload(t: Tag, ord: Order): seq<u8>
    requires ValidOrder(ord)
    decreases t, 2
  {
    match t
    case ByteTag(v) => ToBE(v, 1)
    case ShortTag(v) => ToBE(v, 2)
    case IntTag(v) => ToBE(v, 4)
    case LongTag(v) => ToBE(v, 8)
    case FloatTag(v) => ToBE(v, 4)
    case DoubleTag(v) => ToBE(v, 8)
    case ByteArray(v) => ArrayPayload(v, 1)
    case StringTag(s) => StringBytes(s)
    case ListTag(xs) => ListPayload(xs, ord)
    case CompoundTag(m) => EntriesBytes(t, ord(m), ord) + [0x00]
    case IntArray(v) => ArrayPayload(v, 4)
    case LongArray(v) => ArrayPayload(v, 8)
  }

  /** A list: element type byte, length as an `i32`, then the elements' payloads. */
  function ListPayload(xs: seq<Tag>, ord: Order): seq<u8>
    requires ValidOrder(ord)
    decreases xs, 1
  {
    [ListTypeCode(xs)] + ToBE(|xs|, 4) + ListPayloads(xs, ord)
  }

  /** The payloads of list elements, back to back. */
  function ListPayloads(xs: seq<Tag>, ord: Order): seq<u8>
    requires ValidOrder(ord)
    decreases xs, 0
  {
    if xs == [] then [] else Payload(xs[0], ord) + ListPayloads(xs[1..], ord)
  }

  /** The entries of compound `parent` named by `keys`, each as type code, name, payload. */
  function EntriesBytes(parent: Tag, keys: seq<seq<u8>>, ord: Order): seq<u8>
    requires ValidOrder(ord) && parent.CompoundTag?
    requires forall i | 0 <= i < |keys| :: keys[i] in parent.entries
    decreases parent, 1, |keys|
  {
    if keys == [] then []
    else
      EntryBytes(keys[0], parent.entries[keys[0]], ord) + EntriesBytes(parent, keys[1..], ord)
  }

  /** One compound entry: type code, name, payload. */
  function EntryBytes(name: seq<u8>, v: Tag, ord: Order): seq<u8>
    requires ValidOrder(ord)
    decreases v, 3
  {
    [TypeCode(v)] + StringBytes(name) + Payload(v, ord)
  }

  /** What `Tag::write` emits for a compound root: its entries, with no terminator. */
  function RootBytes(t: Tag, ord: Order): seq<u8>
    requires ValidOrder(ord) && t.CompoundTag?
  {
    EntriesBytes(t, ord(t.entries), ord)
  }

  /** `Tag::write`: the root must be a compound. */
  function WriteDocument(t: Tag, ord: Order): (r: Result<seq<u8>, TagError>)
    requires ValidOrder(ord)
    ensures r.Err? <==> !t.CompoundTag?
    ensures r.Err? ==> r.error == InvalidType
  {
    if t.CompoundTag? then Ok(RootBytes(t, ord)) else Err(InvalidType)
  }

  // ---------------------------------------------------------------------------
  // Properties of the encoding

  /** `get_type` is one-to-one onto 0x01..0x0C. */
  lemma TypeCodeOneToOne(a: Tag, b: Tag)
    ensures TypeCode(a) == TypeCode(b) <==> (a.ByteTag? == b.ByteTag? && a.ShortTag? == b.ShortTag?
      && a.IntTag? == b.IntTag? && a.LongTag? == b.LongTag? && a.FloatTag? == b.FloatTag?
      && a.DoubleTag? == b.DoubleTag? && a.ByteArray? == b.ByteArray? && a.StringTag? == b.StringTag?
      && a.ListTag? == b.ListTag? && a.CompoundTag? == b.CompoundTag? && a.IntArray? == b.IntArray?
      && a.LongArray? == b.LongArray?)
  {
  }

  /** An array of `n` elements of width `w` takes `n * w` bytes. */
  lemma {:induction false} ArrayBytesLength(v: seq<int>, w: nat)
    ensures |ArrayBytes(v, w)| == |v| * w
  {
    if v != [] {
      ArrayBytesLength(v[1..], w);
    }
  }

  /** Payload sizes: scalars at their natural width; arrays as a 4-byte length plus the elements. */
  lemma PayloadSizes(t: Tag, ord: Order)
    requires ValidOrder(ord)
    ensures t.ByteTag? ==> |Payload(t, ord)| == 1
    ensures t.ShortTag? ==> |Payload(t, ord)| == 2
    ensures t.IntTag? || t.FloatTag? ==> |Payload(t, ord)| == 4
    ensures t.LongTag? || t.DoubleTag? ==> |Payload(t, ord)| == 8
    ensures t.ByteArray? ==> |Payload(t, ord)| == 4 + |t.bytes|
    ensures t.IntArray? ==> |Payload(t, ord)| == 4 + 4 * |t.ints|
    ensures t.LongArray? ==> |Payload(t, ord)| == 4 + 8 * |t.longs|
    ensures t.StringTag? ==> |Payload(t, ord)| == 2 + |t.text|
  {
    match t
    case ByteArray(v) => ArrayBytesLength(v, 1);
    case IntArray(v) => ArrayBytesLength(v, 4);
    case LongArray(v) => ArrayBytesLength(v, 8);
    case _ =>
  }

  /** The length prefix of a string is its byte length modulo 65536 (`as u16`). */
  lemma StringPrefix(s: seq<u8>)
    ensures |StringBytes(s)| == 2 + |s| && StringBytes(s)[2..] == s
    ensures FromBE(StringBytes(s)[..2]) == |s| % 0x1_0000
  {
    FromToBE(|s|, 2);
    Pow256Widths();
    assert StringBytes(s)[..2] == ToBE(|s|, 2);
  }

  /** A list's header: the element type byte, then the length as a big-endian `i32`. */
  lemma ListHeader(xs: seq<Tag>, ord: Order)
    requires ValidOrder(ord) && |xs| < 0x8000_0000
    ensures |ListPayload(xs, ord)| >= 5
    ensures ListPayload(xs, ord)[0] == ListTypeCode(xs)
    ensures FromBE(ListPayload(xs, ord)[1..5]) == |xs|
  {
    var h := ToBE(|xs|, 4);
    var p := ListPayload(xs, ord);
    Assoc([ListTypeCode(xs)], h, ListPayloads(xs, ord));
    assert p[1..5] == h;
    FromToBE(|xs|, 4);
    Pow256Widths();
  }

  /** A nested compound is its root form followed by exactly one `0x00`. */
  lemma NestedCompoundTerminated(t: Tag, ord: Order)
    requires ValidOrder(ord) && t.CompoundTag?
    ensures Payload(t, ord) == RootBytes(t, ord) + [0x00]
    ensures RootBytes(t, ord) == EntriesBytes(t, ord(t.entries), ord)
  {
  }

  // ---------------------------------------------------------------------------
  // The writer over a sink

  /** `Tag::write`: the root compound's entries, or `InvalidType` and nothing written. */
  method Write(t: Tag, sink: Sink, ord: Order) returns (r: Result<(), TagError>)
    requires ValidOrder(ord)
    modifies sink
    ensures WriteDocument(t, ord).Ok? ==> r == Ok(()) && sink.written == old(sink.written) + WriteDocument(t, ord).value
    ensures WriteDocument(t, ord).Err? ==> r == Err(WriteDocument(t, ord).error) && sink.written == old(sink.written)
  {
    match t
    case CompoundTag(_) =>
      WriteEntries(t, sink, ord);
      r := Ok(());
    case _ =>
      r := Err(InvalidType);
  }

  /** The entry loop shared by the root and nested compounds. */
  method WriteEntries(parent: Tag, sink: Sink, ord: Order)
    requires ValidOrder(ord) && parent.CompoundTag?
    modifies sink
    ensures sink.written == old(sink.written) + EntriesBytes(parent, ord(parent.entries), ord)
    decreases parent, 1
  {
    var m := parent.entries;
    var keys := ord(m);
    assert Enumerates(keys, m);
    for i := 0 to |keys|
      invariant sink.written + EntriesBytes(parent, keys[i..], ord)
             == old(sink.written) + EntriesBytes(parent, keys, ord)
    {
      ghost var before := sink.written;
      assert keys[i..][0] == keys[i] && keys[i..][1..] == keys[i + 1..];
      WriteEntry(keys[i], m[keys[i]], sink, ord);
      Assoc(before, EntryBytes(keys[i], m[keys[i]], ord), EntriesBytes(parent, keys[i + 1..], ord));
    }
  }

  /** One entry: `write_type`, `write_string` of the name, `write_element`. */
  method WriteEntry(name: seq<u8>, v: Tag, sink: Sink, ord: Order)
    requires ValidOrder(ord)
    modifies sink
    ensures sink.written == old(sink.written) + EntryBytes(name, v, ord)
    decreases v, 3
  {
    WriteType(v, sink);
    WriteString(sink, name);
    WriteElement(v, sink, ord);
    Assoc(old(sink.written), [TypeCode(v)], StringBytes(name));
    Assoc(old(sink.written), [TypeCode(v)] + StringBytes(name), Payload(v, ord));
  }

  /** `write_type`: one byte, the tag's type code. */
  method WriteType(t: Tag, sink: Sink)
    modifies sink
    ensures sink.written == old(sink.written) + [TypeCode(t)]
  {
    sink.WriteU8(TypeCode(t));
  }

  /** `write_string`. */
  method WriteString(sink: Sink, s: seq<u8>)
    modifies sink
    ensures sink.written == old(sink.written) + StringBytes(s)
  {
    sink.WriteBE(|s|, 2);
    sink.WriteBytes(s);
  }

  /** `write_element`: the payload, recursing into list elements and compound entries. */
  method WriteElement(t: Tag, sink: Sink, ord: Order)
    requires ValidOrder(ord)
    modifies sink
    ensures sink.written == old(sink.written) + Payload(t, ord)
    decreases t, 2
  {
    match t
    case ByteTag(v) => sink.WriteBE(v, 1);
    case ShortTag(v) => sink.WriteBE(v, 2);
    case IntTag(v) => sink.WriteBE(v, 4);
    case LongTag(v) => sink.WriteBE(v, 8);
    case FloatTag(v) => sink.WriteBE(v, 4);
    case DoubleTag(v) => sink.WriteBE(v, 8);
    case ByteArray(v) => WriteArray(v, 1, sink);
    case StringTag(s) => WriteString(sink, s);
    case ListTag(xs) => WriteList(xs, sink, ord);
    case CompoundTag(m) =>
      WriteEntries(t, sink, ord);
      sink.WriteU8(0x00);
    case IntArray(v) => WriteArray(v, 4, sink);
    case LongArray(v) => WriteArray(v, 8, sink);
  }

  /** The list case: element type byte, length, then each element's payload. */
  method WriteList(xs: seq<Tag>, sink: Sink, ord: Order)
    requires ValidOrder(ord)
    modifies sink
    ensures sink.written == old(sink.written) + ListPayload(xs, ord)
    decreases xs
  {
    sink.WriteU8(ListTypeCode(xs));
    sink.WriteBE(|xs|, 4);
    Assoc(old(sink.written), [ListTypeCode(xs)], ToBE(|xs|, 4));
    Assoc(old(sink.written), [ListTypeCode(xs)] + ToBE(|xs|, 4), ListPayloads(xs, ord));
    for i := 0 to |xs|
      invariant sink.written + ListPayloads(xs[i..], ord) == old(sink.written) + ListPayload(xs, ord)
    {
      ghost var before := sink.written;
      assert xs[i..][0] == xs[i] && xs[i..][1..] == xs[i + 1..];
      WriteElement(xs[i], sink, ord);
      Assoc(before, Payload(xs[i], ord), ListPayloads(xs[i + 1..], ord));
    }
  }

  /** The three array cases: the length, then each element at width `w`. */
  method WriteArray(v: seq<int>, w: nat, sink: Sink)
    modifies sink
    ensures sink.written == old(sink.written) + ArrayPayload(v, w)
  {
    sink.WriteBE(|v|, 4);
    for i := 0 to |v|
      invariant sink.written + ArrayBytes(v[i..], w) == old(sink.written) + ArrayPayload(v, w)
    {
      ghost var before := sink.written;
      assert v[i..][0] == v[i] && v[i..][1..] == v[i + 1..];
      sink.WriteBE(v[i], w);
      Assoc(before, ToBE(v[i], w), ArrayBytes(v[i + 1..], w));
    }
  }

  lemma Assoc<T>(a: seq<T>, b: seq<T>, c: seq<T>)
    ensures a + b + c == a + (b + c)
  {
  }
}
