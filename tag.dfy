/**
 * The NBT tag tree: twelve payload-carrying variants, their typed read
 * accessors, the in-place `_mut` accessors and the recursive leaf count.
 */
module NbtTag {
  import opened Bytes
  import opened Results

  /** Why reading or writing failed. */
  datatype TagError = InvalidType | InvalidUtf8 | IoError

  /**
   * A tag. Strings and compound keys are byte strings (UTF-8 when the tree is
   * well formed); floats and doubles are their IEEE-754 bit patterns, which the
   * codec only copies.
   */
  datatype Tag =
    | ByteTag(byteValue: i8)
    | ShortTag(shortValue: i16)
    | IntTag(intValue: i32)
    | LongTag(longValue: i64)
    | FloatTag(floatBits: u32)
    | DoubleTag(doubleBits: u64)
    | ByteArray(bytes: seq<i8>)
    | StringTag(text: seq<u8>)
    | ListTag(elements: seq<Tag>)
    | CompoundTag(entries: map<seq<u8>, Tag>)
    | IntArray(ints: seq<i32>)
    | LongArray(longs: seq<i64>)

  // ---------------------------------------------------------------------------
  // Leaf count

  /** The number of leaves reachable in `t`: one per scalar or string, one per array element. */
  ghost function Count(t: Tag): nat
    decreases t
  {
    match t
    case ByteTag(_) => 1
    case ShortTag(_) => 1
    case IntTag(_) => 1
    case LongTag(_) => 1
    case FloatTag(_) => 1
    case DoubleTag(_) => 1
    case ByteArray(v) => |v|
    case StringTag(_) => 1
    case ListTag(xs) => CountList(xs)
    case CompoundTag(m) => CountEntries(t, m.Keys)
    case IntArray(v) => |v|
    case LongArray(v) => |v|
  }

  /** The leaves of a sequence of tags. */
  ghost function CountList(xs: seq<Tag>): nat
    decreases xs
  {
    if xs == [] then 0 else CountList(xs[..|xs| - 1]) + Count(xs[|xs| - 1])
  }

  /** The leaves under the entries of compound `parent` whose keys are in `keys`, in no particular order. */
  ghost function CountEntries(parent: Tag, keys: set<seq<u8>>): nat
    requires parent.CompoundTag? && keys <= parent.entries.Keys
    decreases parent, |keys|
  {
    if keys == {} then 0
    else
      var k :| k in keys;
      Count(parent.entries[k]) + CountEntries(parent, keys - {k})
  }

  /** The sum over a compound's entries does not depend on the order they are visited in. */
  lemma {:induction false} CountEntriesPick(parent: Tag, keys: set<seq<u8>>, k: seq<u8>)
    requires parent.CompoundTag? && keys <= parent.entries.Keys && k in keys
    ensures CountEntries(parent, keys) == Count(parent.entries[k]) + CountEntries(parent, keys - {k})
    decreases |keys|
  {
    var m := parent.entries;
    var j :| j in keys && CountEntries(parent, keys) == Count(m[j]) + CountEntries(parent, keys - {j});
    if j != k {
      CountEntriesPick(parent, keys - {j}, k);
      CountEntriesPick(parent, keys - {k}, j);
      assert keys - {j} - {k} == keys - {k} - {j};
    }
  }

  /**
   * `count_elements`: adds the leaf count of `t` to the counter, walking
   * lists in order and compounds in whatever order their entries come.
   */
  method CountElements(t: Tag, counter: nat) returns (counter': nat)
    ensures counter' == counter + Count(t)
    decreases t
  {
    match t
    case ByteTag(_) => counter' := counter + 1;
    case ShortTag(_) => counter' := counter + 1;
    case IntTag(_) => counter' := counter + 1;
    case LongTag(_) => counter' := counter + 1;
    case FloatTag(_) => counter' := counter + 1;
    case DoubleTag(_) => counter' := counter + 1;
    case ByteArray(v) => counter' := counter + |v|;
    case StringTag(_) => counter' := counter + 1;
    case ListTag(xs) =>
      counter' := counter;
      for i := 0 to |xs|
        invariant counter' == counter + CountList(xs[..i])
      {
        assert xs[..i + 1][..i] == xs[..i];
        counter' := CountElements(xs[i], counter');
      }
      assert xs[..|xs|] == xs;
    case CompoundTag(m) =>
      counter' := counter;
      var rest := m.Keys;
      while rest != {}
        invariant rest <= m.Keys
        invariant counter' + CountEntries(t, rest) == counter + CountEntries(t, m.Keys)
        decreases |rest|
      {
        var k :| k in rest;
        CountEntriesPick(t, rest, k);
        counter' := CountElements(m[k], counter');
        rest := rest - {k};
      }
    case IntArray(v) => counter' := counter + |v|;
    case LongArray(v) => counter' := counter + |v|;
  }

  // ---------------------------------------------------------------------------
  // Read accessors: the payload for the matching variant, `None` otherwise.

  function AsByte(t: Tag): (r: Option<i8>)
    ensures r.Some? <==> t.ByteTag?
    ensures r.Some? ==> t == ByteTag(r.value)
  {
    match t
    case ByteTag(b) => Some(b)
    case _ => None
  }

  function AsShort(t: Tag): (r: Option<i16>)
    ensures r.Some? <==> t.ShortTag?
    ensures r.Some? ==> t == ShortTag(r.value)
  {
    match t
    case ShortTag(s) => Some(s)
    case _ => None
  }

  function AsInt(t: Tag): (r: Option<i32>)
    ensures r.Some? <==> t.IntTag?
    ensures r.Some? ==> t == IntTag(r.value)
  {
    match t
    case IntTag(i) => Some(i)
    case _ => None
  }

  function AsLong(t: Tag): (r: Option<i64>)
    ensures r.Some? <==> t.LongTag?
    ensures r.Some? ==> t == LongTag(r.value)
  {
    match t
    case LongTag(l) => Some(l)
    case _ => None
  }

  function AsFloat(t: Tag): (r: Option<u32>)
    ensures r.Some? <==> t.FloatTag?
    ensures r.Some? ==> t == FloatTag(r.value)
  {
    match t
    case FloatTag(f) => Some(f)
    case _ => None
  }

  function AsDouble(t: Tag): (r: Option<u64>)
    ensures r.Some? <==> t.DoubleTag?
    ensures r.Some? ==> t == DoubleTag(r.value)
  {
    match t
    case DoubleTag(d) => Some(d)
    case _ => None
  }

  function AsByteArray(t: Tag): (r: Option<seq<i8>>)
    ensures r.Some? <==> t.ByteArray?
    ensures r.Some? ==> t == ByteArray(r.value)
  {
    match t
    case ByteArray(b) => Some(b)
    case _ => None
  }

  function AsString(t: Tag): (r: Option<seq<u8>>)
    ensures r.Some? <==> t.StringTag?
    ensures r.Some? ==> t == StringTag(r.value)
  {
    match t
    case StringTag(s) => Some(s)
    case _ => None
  }

  function AsList(t: Tag): (r: Option<seq<Tag>>)
    ensures r.Some? <==> t.ListTag?
    ensures r.Some? ==> t == ListTag(r.value)
  {
    match t
    case ListTag(l) => Some(l)
    case _ => None
  }

  function AsCompound(t: Tag): (r: Option<map<seq<u8>, Tag>>)
    ensures r.Some? <==> t.CompoundTag?
    ensures r.Some? ==> t == CompoundTag(r.value)
  {
    match t
    case CompoundTag(c) => Some(c)
    case _ => None
  }

  function AsIntArray(t: Tag): (r: Option<seq<i32>>)
    ensures r.Some? <==> t.IntArray?
    ensures r.Some? ==> t == IntArray(r.value)
  {
    match t
    case IntArray(i) => Some(i)
    case _ => None
  }

  function AsLongArray(t: Tag): (r: Option<seq<i64>>)
    ensures r.Some? <==> t.LongArray?
    ensures r.Some? ==> t == LongArray(r.value)
  {
    match t
    case LongArray(l) => Some(l)
    case _ => None
  }

  /** How many of the twelve read accessors answer `Some` for `t`. */
  function AccessorHits(t: Tag): nat {
    (if AsByte(t).Some? then 1 else 0) + (if AsShort(t).Some? then 1 else 0)
    + (if AsInt(t).Some? then 1 else 0) + (if AsLong(t).Some? then 1 else 0)
    + (if AsFloat(t).Some? then 1 else 0) + (if AsDouble(t).Some? then 1 else 0)
    + (if AsByteArray(t).Some? then 1 else 0) + (if AsString(t).Some? then 1 else 0)
    + (if AsList(t).Some? then 1 else 0) + (if AsCompound(t).Some? then 1 else 0)
    + (if AsIntArray(t).Some? then 1 else 0) + (if AsLongArray(t).Some? then 1 else 0)
  }

  /** Every tag answers exactly one of the read accessors. */
  lemma ExactlyOneAccessor(t: Tag)
    ensures AccessorHits(t) == 1
  {
  }

  // ---------------------------------------------------------------------------
  // Mutable accessors

  /**
   * A place holding a tag, through which the `_mut` accessors write. Each
   * `XMut(v)` stands for taking `x_mut()` and, if it is `Some`, storing `v`
   * through the reference: the variant is kept and only the payload changes;
   * on any other variant nothing changes.
   */
  class TagCell {
    var tag: Tag

    constructor (t: Tag)
      ensures tag == t
    {
      tag := t;
    }

    method ByteMut(v: i8) returns (found: bool)
      modifies this
      ensures found <==> old(tag).ByteTag?
      ensures tag == if found then ByteTag(v) else old(tag)
    {
      match tag
      case ByteTag(_) => tag := ByteTag(v); found := true;
      case _ => found := false;
    }

    method ShortMut(v: i16) returns (found: bool)
      modifies this
      ensures found <==> old(tag).ShortTag?
      ensures tag == if found then ShortTag(v) else old(tag)
    {
      match tag
      case ShortTag(_) => tag := ShortTag(v); found := true;
      case _ => found := false;
    }

    method IntMut(v: i32) returns (found: bool)
      modifies this
      ensures found <==> old(tag).IntTag?
      ensures tag == if found then IntTag(v) else old(tag)
    {
      match tag
      case IntTag(_) => tag := IntTag(v); found := true;
      case _ => found := false;
    }

    method LongMut(v: i64) returns (found: bool)
      modifies this
      ensures found <==> old(tag).LongTag?
      ensures tag == if found then LongTag(v) else old(tag)
    {
      match tag
      case LongTag(_) => tag := LongTag(v); found := true;
      case _ => found := false;
    }

    method FloatMut(v: u32) returns (found: bool)
      modifies this
      ensures found <==> old(tag).FloatTag?
      ensures tag == if found then FloatTag(v) else old(tag)
    {
      match tag
      case FloatTag(_) => tag := FloatTag(v); found := true;
      case _ => found := false;
    }

    method DoubleMut(v: u64) returns (found: bool)
      modifies this
      ensures found <==> old(tag).DoubleTag?
      ensures tag == if found then DoubleTag(v) else old(tag)
    {
      match tag
      case DoubleTag(_) => tag := DoubleTag(v); found := true;
      case _ => found := false;
    }

    method ByteArrayMut(v: seq<i8>) returns (found: bool)
      modifies this
      ensures found <==> old(tag).ByteArray?
      ensures tag == if found then ByteArray(v) else old(tag)
    {
      match tag
      case ByteArray(_) => tag := ByteArray(v); found := true;
      case _ => found := false;
    }

    method StringMut(v: seq<u8>) returns (found: bool)
      modifies this
      ensures found <==> old(tag).StringTag?
      ensures tag == if found then StringTag(v) else old(tag)
    {
      match tag
      case StringTag(_) => tag := StringTag(v); found := true;
      case _ => found := false;
    }

    method ListMut(v: seq<Tag>) returns (found: bool)
      modifies this
      ensures found <==> old(tag).ListTag?
      ensures tag == if found then ListTag(v) else old(tag)
    {
      match tag
      case ListTag(_) => tag := ListTag(v); found := true;
      case _ => found := false;
    }

    method CompoundMut(v: map<seq<u8>, Tag>) returns (found: bool)
      modifies this
      ensures found <==> old(tag).CompoundTag?
      ensures tag == if found then CompoundTag(v) else old(tag)
    {
      match tag
      case CompoundTag(_) => tag := CompoundTag(v); found := true;
      case _ => found := false;
    }

    method IntArrayMut(v: seq<i32>) returns (found: bool)
      modifies this
      ensures found <==> old(tag).IntArray?
      ensures tag == if found then IntArray(v) else old(tag)
    {
      match tag
      case IntArray(_) => tag := IntArray(v); found := true;
      case _ => found := false;
    }

    method LongArrayMut(v: seq<i64>) returns (found: bool)
      modifies this
      ensures found <==> old(tag).LongArray?
      ensures tag == if found then LongArray(v) else old(tag)
    {
      match tag
      case LongArray(_) => tag := LongArray(v); found := true;
      case _ => found := false;
    }
  }
}
