/**
 * The legacy getters (`get_as_*`): one per payload-carrying variant of the
 * parser's tag, each the payload for its own variant and `None` otherwise.
 */
module LegacyGetters {
  import opened Results
  import opened Bytes
  import opened LegacyParser

  function GetAsByte(t: Tag): (r: Option<i8>)
    ensures r.Some? <==> t.ByteTag?
    ensures r.Some? ==> t == ByteTag(r.value)
  {
    match t
    case ByteTag(b) => Some(b)
    case _ => None
  }

  function GetAsShort(t: Tag): (r: Option<i16>)
    ensures r.Some? <==> t.ShortTag?
    ensures r.Some? ==> t == ShortTag(r.value)
  {
    match t
    case ShortTag(s) => Some(s)
    case _ => None
  }

  function GetAsInt(t: Tag): (r: Option<i32>)
    ensures r.Some? <==> t.IntTag?
    ensures r.Some? ==> t == IntTag(r.value)
  {
    match t
    case IntTag(i) => Some(i)
    case _ => None
  }

  function GetAsLong(t: Tag): (r: Option<i64>)
    ensures r.Some? <==> t.LongTag?
    ensures r.Some? ==> t == LongTag(r.value)
  {
    match t
    case LongTag(l) => Some(l)
    case _ => None
  }

  function GetAsFloat(t: Tag): (r: Option<u32>)
    ensures r.Some? <==> t.FloatTag?
    ensures r.Some? ==> t == FloatTag(r.value)
  {
    match t
    case FloatTag(f) => Some(f)
    case _ => None
  }

  function GetAsDouble(t: Tag): (r: Option<u64>)
    ensures r.Some? <==> t.DoubleTag?
    ensures r.Some? ==> t == DoubleTag(r.value)
  {
    match t
    case DoubleTag(d) => Some(d)
    case _ => None
  }

  function GetAsByteArray(t: Tag): (r: Option<seq<i8>>)
    ensures r.Some? <==> t.ByteArray?
    ensures r.Some? ==> t == ByteArray(r.value)
  {
    match t
    case ByteArray(b) => Some(b)
    case _ => None
  }

  function GetAsString(t: Tag): (r: Option<seq<u8>>)
    ensures r.Some? <==> t.StringTag?
    ensures r.Some? ==> t == StringTag(r.value)
  {
    match t
    case StringTag(s) => Some(s)
    case _ => None
  }

  function GetAsList(t: Tag): (r: Option<seq<Tag>>)
    ensures r.Some? <==> t.ListTag?
    ensures r.Some? ==> t == ListTag(r.value)
  {
    match t
    case ListTag(l) => Some(l)
    case _ => None
  }

  function GetAsCompound(t: Tag): (r: Option<map<seq<u8>, Tag>>)
    ensures r.Some? <==> t.CompoundTag?
    ensures r.Some? ==> t == CompoundTag(r.value)
  {
    match t
    case CompoundTag(c) => Some(c)
    case _ => None
  }

  function GetAsIntArray(t: Tag): (r: Option<seq<i32>>)
    ensures r.Some? <==> t.IntArray?
    ensures r.Some? ==> t == IntArray(r.value)
  {
    match t
    case IntArray(i) => Some(i)
    case _ => None
  }

  function GetAsLongArray(t: Tag): (r: Option<seq<i64>>)
    ensures r.Some? <==> t.LongArray?
    ensures r.Some? ==> t == LongArray(r.value)
  {
    match t
    case LongArray(l) => Some(l)
    case _ => None
  }

  /** How many of the twelve getters answer `Some` for `t`. */
  function GetterHits(t: Tag): nat {
    (if GetAsByte(t).Some? then 1 else 0) + (if GetAsShort(t).Some? then 1 else 0)
    + (if GetAsInt(t).Some? then 1 else 0) + (if GetAsLong(t).Some? then 1 else 0)
    + (if GetAsFloat(t).Some? then 1 else 0) + (if GetAsDouble(t).Some? then 1 else 0)
    + (if GetAsByteArray(t).Some? then 1 else 0) + (if GetAsString(t).Some? then 1 else 0)
    + (if GetAsList(t).Some? then 1 else 0) + (if GetAsCompound(t).Some? then 1 else 0)
    + (if GetAsIntArray(t).Some? then 1 else 0) + (if GetAsLongArray(t).Some? then 1 else 0)
  }

  /** `EndTag` has no payload: every getter answers `None`. */
  lemma EndTagHasNoValue()
    ensures GetterHits(EndTag) == 0
  {
  }

  /** Every other tag answers exactly one getter. */
  lemma ExactlyOneGetter(t: Tag)
    requires t != EndTag
    ensures GetterHits(t) == 1
  {
  }
}
