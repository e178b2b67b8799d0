# nbt-parser, modelled in Dafny

A model of the codec at the heart of nbt-parser. That codec reads and writes
Minecraft's Named Binary Tag (NBT) format in its big-endian, named form. The
model has four parts, each modelled from the code:

- the tag tree and its accessors (`src/tag.rs`);
- the reader `Tag::read` (`src/read.rs`);
- the writer `Tag::write` (`src/write.rs`);
- the older strict parser `Tag::parse` and its by-value getters
  (`src/parser.rs`, `src/getters.rs`).

Each reader is modelled twice:

- a pure function says what is decoded at a cursor position and where the
  cursor ends: `ReadTypeAt`, `ReadEntriesAt`, `ParseTypeAt`, and so on;
- a method runs the source's loops over a `Source` byte stream and is proved
  to agree with that function.

The writer works the same way. Functions (`Payload`, `EntriesBytes`,
`WriteDocument`) give the bytes produced. Methods append to a `Sink` and are
proved to append exactly those bytes.

The central theorem is `NbtRoundTrip.WriteThenRead`. Take a compound tag the
format can carry: lengths fit in an `i32`, every text and name is UTF-8 and at
most 65535 bytes, and each list's elements share one type. Writing it, with
the entries in any order, and reading the bytes back gives the same tag.
In the other direction, `NbtReadShape.ReadWriteRead` starts from bytes. Any
document that reads is rewritten and read again to the same tag, provided
every string value read fits a `u16` length. That proviso is needed because
lossy decoding can lengthen a string.

Modules, one per file:

| module | file | models |
|---|---|---|
| `Results` | results.dfy | `Option`/`Result` and a decoded-value-plus-cursor pair |
| `Bytes` | bytes.dfy | big-endian integer encoding of the `byteorder` calls |
| `Utf8` | utf8.dfy | UTF-8 validity (`String::from_utf8`) and lossy decoding (`String::from_utf8_lossy`) |
| `Stream` | stream.dfy | the reading and writing primitives (`read_u8`, `read_i32`, `eat`, `write_*`) |
| `NbtTag` | tag.dfy | `Tag`, `TagError`, `count_elements`, the reference and `_mut` accessors |
| `NbtRead` | read.dfy | `Tag::read` / `read_type` |
| `NbtReadFacts` | readfacts.dfy | what the reader accepts and produces, case by case, and sample documents |
| `NbtWrite` | write.dfy | `Tag::write`, `write_type`, `get_type`, `write_element`, `write_string` |
| `NbtRoundTrip` | roundtrip.dfy | reading back what was written |
| `NbtReadShape` | readshape.dfy | what the reader produces is writable; reading what was read and written back |
| `LegacyParser` | parser.dfy | the parser's own `Tag` (with `EndTag`), `TagParseErr`, `parse` / `parse_type` |
| `LegacyGetters` | getters.dfy | the `get_as_*` getters |

Where the code and the format's usual description differ, the model follows
the code:

- `Tag::read` (src/read.rs:10-12) starts inside a compound body. It does not
  consume a root type byte `0x0A` or a root name. The header `0A 00 00 00`
  therefore reads as a compound with one entry: an empty name holding an
  empty compound (`ReadRootHeader`). The legacy parser behaves the same way
  (`ParseRootHeader`).
- `Tag::write` (src/write.rs:8-20) writes the root's entries with no closing
  `0x00`. Only nested compounds get one (src/write.rs:67-74). The round trip
  still closes because the compound loop treats end-of-stream as the end of
  the entries (src/read.rs:68).
- End-of-stream in place of a type byte ends any compound, at any depth, not
  only the root (src/read.rs:68, src/parser.rs:118).
- The reader decodes string values lossily (src/read.rs:52). Malformed
  sequences become U+FFFD, so `InvalidUtf8` can only come from an entry name
  (src/read.rs:74). The legacy parser is strict for both values and names
  (`StrictVersusLossy`).
- The reader rejects type code `0x00` with `InvalidType`. A list whose element
  type is `0x00` therefore reads only when it is empty (`ReadListOfEnd`). The
  legacy parser returns `EndTag` for `0x00` without consuming anything, so it
  accepts such a list as a run of `EndTag`s (`EndListVersusReader`).
- The legacy parser has no array cases. The `0x07` and `0x0B` cases are
  commented out (src/parser.rs:94-101, 130-137), and `0x0C` has no case at
  all. All three fall to the default arm (src/parser.rs:138) and give
  `InvalidType`, like every code above `0x0C` (`ParseUnsupported`). Its
  `InvalidLength` error is never produced.
- A negative `i32` length runs its loop zero times and yields an empty array or
  list (`ReadArrayNegative`, `ParseListHeader`).
- The writer truncates lengths: `len() as u16` for names and strings, and
  `len() as i32` for arrays and lists. A list's type byte is its first
  element's code, or `0x00` for an empty list (src/write.rs:60). This is why
  the round trip needs `WellFormed`.

Floats and doubles are kept as their IEEE bit patterns (`u32`, `u64`).
Strings are UTF-8 byte sequences. A `HashMap`'s iteration order is an `Order`
parameter of the writer: a function from a map to a duplicate-free list of
exactly its keys.

## Model

| member | source | states |
|---|---|---|
| NbtTag.CountElements | src/tag.rs:82-105 | the counter grows by one per scalar or string, by the length of each array, recursively through lists and compounds (the recursive `Count` of the tree) |
| NbtTag.CountEntriesPick | src/tag.rs:97-101 | a compound's count is the same whichever entry is visited first, so `values()` order does not matter |
| NbtTag.AsByte | src/tag.rs:107-112 | returns a value exactly when the tag is a Byte, and that value is the tag's |
| NbtTag.AsShort | src/tag.rs:114-119 | returns a value exactly when the tag is a Short, and that value is the tag's |
| NbtTag.AsInt | src/tag.rs:121-126 | returns a value exactly when the tag is an Int, and that value is the tag's |
| NbtTag.AsLong | src/tag.rs:128-133 | returns a value exactly when the tag is a Long, and that value is the tag's |
| NbtTag.AsFloat | src/tag.rs:135-140 | returns a value exactly when the tag is a Float, and that value is the tag's |
| NbtTag.AsDouble | src/tag.rs:142-147 | returns a value exactly when the tag is a Double, and that value is the tag's |
| NbtTag.AsByteArray | src/tag.rs:149-154 | returns a value exactly when the tag is a byte array, and that value is the tag's |
| NbtTag.AsString | src/tag.rs:156-161 | returns a value exactly when the tag is a String, and that value is the tag's |
| NbtTag.AsList | src/tag.rs:163-168 | returns a value exactly when the tag is a List, and that value is the tag's |
| NbtTag.AsCompound | src/tag.rs:170-175 | returns a value exactly when the tag is a Compound, and that value is the tag's |
| NbtTag.AsIntArray | src/tag.rs:177-182 | returns a value exactly when the tag is an int array, and that value is the tag's |
| NbtTag.AsLongArray | src/tag.rs:184-189 | returns a value exactly when the tag is a long array, and that value is the tag's |
| NbtTag.ExactlyOneAccessor | src/tag.rs:107-189 | every tag answers exactly one of the twelve accessors |
| NbtTag.TagCell.constructor | src/tag.rs:27-40 | a cell holds the given tag |
| NbtTag.TagCell.ByteMut | src/tag.rs:191-196 | reports success exactly when the tag is a Byte; then the write-through replaces its value, otherwise the tag is unchanged |
| NbtTag.TagCell.ShortMut | src/tag.rs:198-203 | reports success exactly when the tag is a Short; then the write-through replaces its value, otherwise the tag is unchanged |
| NbtTag.TagCell.IntMut | src/tag.rs:205-210 | reports success exactly when the tag is an Int; then the write-through replaces its value, otherwise the tag is unchanged |
| NbtTag.TagCell.LongMut | src/tag.rs:212-217 | reports success exactly when the tag is a Long; then the write-through replaces its value, otherwise the tag is unchanged |
| NbtTag.TagCell.FloatMut | src/tag.rs:219-224 | reports success exactly when the tag is a Float; then the write-through replaces its value, otherwise the tag is unchanged |
| NbtTag.TagCell.DoubleMut | src/tag.rs:226-231 | reports success exactly when the tag is a Double; then the write-through replaces its value, otherwise the tag is unchanged |
| NbtTag.TagCell.ByteArrayMut | src/tag.rs:233-238 | reports success exactly when the tag is a byte array; then the write-through replaces its value, otherwise the tag is unchanged |
| NbtTag.TagCell.StringMut | src/tag.rs:240-245 | reports success exactly when the tag is a String; then the write-through replaces its value, otherwise the tag is unchanged |
| NbtTag.TagCell.ListMut | src/tag.rs:247-252 | reports success exactly when the tag is a List; then the write-through replaces its value, otherwise the tag is unchanged |
| NbtTag.TagCell.CompoundMut | src/tag.rs:254-259 | reports success exactly when the tag is a Compound; then the write-through replaces its value, otherwise the tag is unchanged |
| NbtTag.TagCell.IntArrayMut | src/tag.rs:261-266 | reports success exactly when the tag is an int array; then the write-through replaces its value, otherwise the tag is unchanged |
| NbtTag.TagCell.LongArrayMut | src/tag.rs:268-273 | reports success exactly when the tag is a long array; then the write-through replaces its value, otherwise the tag is unchanged |
| Bytes.FromToBE | src/write.rs:46-51 | decoding a `w`-byte big-endian encoding gives the value modulo 256^w (the `as` truncation) |
| Bytes.ToFromBE | src/read.rs:17-39 | encoding a decoded byte string gives the same bytes back |
| Bytes.SignedRoundTrip | src/read.rs:17-31 | a value in the signed range of `w` bytes survives encoding and two's-complement decoding |
| Utf8.LossyOfValid | src/read.rs:52 | lossy decoding leaves valid UTF-8 unchanged |
| Utf8.LossyIsValid | src/read.rs:52 | lossy decoding always yields valid UTF-8 |
| Utf8.LossyLength | src/read.rs:52 | lossy decoding at most triples the length (U+FFFD is three bytes) |
| Utf8.LossyOfInvalidByte | src/read.rs:52 | a lone `0xFF` byte decodes to U+FFFD |
| Utf8.LossyOfInvalidBytes | src/read.rs:52 | a run of `n` invalid bytes decodes to `3n` bytes, so a decoded string can outgrow a `u16` length |
| Stream.ReadU8At | src/read.rs:56 | a byte is available exactly when the cursor is before the end; it is the byte there and the cursor moves by one |
| Stream.EatAt | src/read.rs:101-105 | `n` bytes are available exactly when they fit; the result is exactly those bytes and the cursor moves by `n` |
| Stream.ReadUnsignedAt | src/read.rs:33-39 | an unsigned `w`-byte read succeeds exactly when `w` bytes remain, gives a value below 256^w and moves the cursor by `w` |
| Stream.ReadSignedAt | src/read.rs:17-31 | a signed `w`-byte read succeeds exactly when `w` bytes remain, gives a value in the signed range and moves the cursor by `w` |
| Stream.ReadUnsignedOfEncoding | src/read.rs:33-39 | reading an unsigned value over its big-endian encoding gives the value modulo 256^w |
| Stream.ReadSignedOfEncoding | src/read.rs:17-31 | reading a signed value over its big-endian encoding gives the value back |
| Stream.Source.constructor | src/read.rs:10 | a stream over `data` starts at the first byte |
| Stream.Source.ReadU8 | src/read.rs:68 | agrees with `ReadU8At` on the stream's bytes and cursor |
| Stream.Source.Eat | src/parser.rs:143-147 | agrees with `EatAt` on the stream's bytes and cursor |
| Stream.Source.ReadUnsigned | src/read.rs:51 | agrees with `ReadUnsignedAt` on the stream's bytes and cursor |
| Stream.Source.ReadSigned | src/read.rs:42 | agrees with `ReadSignedAt` on the stream's bytes and cursor |
| Stream.Sink.constructor | src/write.rs:8 | a new sink holds no bytes |
| Stream.Sink.WriteBytes | src/write.rs:95 | appends exactly the given bytes |
| Stream.Sink.WriteU8 | src/write.rs:23 | appends exactly one byte |
| Stream.Sink.WriteBE | src/write.rs:46-51 | appends the `w`-byte big-endian encoding |
| NbtRead.Need | src/tag.rs:14-18 | a missing value becomes `IoError` and a present one passes through unchanged |
| NbtRead.ReadTypeAt | src/read.rs:14-98 | a successful read leaves the cursor between its start and the end of the data |
| NbtRead.ReadArrayAt | src/read.rs:41-48 | a successful array read consumes at least the 4-byte length, and every element fits its width |
| NbtRead.ReadElementsAt | src/read.rs:44-46 | the element loop never moves the cursor backwards or past the end |
| NbtRead.ReadElementsFacts | src/read.rs:44-46 | the element loop keeps what it was given, adds one element per iteration (none for a negative count), each within its width, and fails only with `IoError` |
| NbtRead.ReadStringAt | src/read.rs:50-53 | a string read consumes at least its 2-byte length and fails only with `IoError` |
| NbtRead.ReadListAt | src/read.rs:55-63 | a successful list read consumes at least its 5-byte header |
| NbtRead.ReadTagsAt | src/read.rs:59-61 | the list loop never moves the cursor backwards or past the end |
| NbtRead.ReadEntriesAt | src/read.rs:65-79 | the entry loop never moves the cursor backwards or past the end |
| NbtRead.ReadEntriesStep | src/read.rs:73-76 | an entry with a readable name and payload is inserted under its name, replacing an earlier entry of that name, and the loop continues after it |
| NbtRead.ReadEntriesStop | src/read.rs:68-71 | a `0x00` type byte, or end-of-stream, ends the compound with the entries read so far |
| NbtRead.Read | src/read.rs:10-12 | reading a stream is reading a compound body from its cursor, with the same result and final position |
| NbtRead.ReadType | src/read.rs:14-98 | the dispatch over a stream agrees with `ReadTypeAt` in result and final position |
| NbtRead.ReadArray | src/read.rs:41-48 | the array loops over a stream agree with `ReadArrayAt` |
| NbtRead.ReadString | src/read.rs:50-53 | the string case over a stream agrees with `ReadStringAt` |
| NbtRead.ReadList | src/read.rs:55-63 | the list case over a stream agrees with `ReadListAt` |
| NbtRead.ReadCompound | src/read.rs:65-79 | the compound loop over a stream agrees with `ReadEntriesAt` |
| NbtReadFacts.ReadScalar | src/read.rs:17-39 | a scalar read succeeds exactly when its width of bytes remains; it decodes those bytes big-endian into a tag of that type, and otherwise fails with `IoError` |
| NbtReadFacts.ReadElementsShape | src/read.rs:44-46 | the element loop succeeds exactly when `w * max(n, 0)` bytes remain, and ends right after them |
| NbtReadFacts.ReadElementsValues | src/read.rs:44-46 | element `i` of the result is the `i`-th `w`-byte big-endian value after the cursor |
| NbtReadFacts.ReadArrayContent | src/read.rs:41-48 | an array reads exactly when its length and all its elements are present; it has `max(length, 0)` elements, each the big-endian value at its offset, and errors are `IoError` |
| NbtReadFacts.ReadArrayNegative | src/read.rs:42-44 | a negative length gives an empty array after the 4 length bytes |
| NbtReadFacts.ReadStringContent | src/read.rs:50-53 | a string reads exactly when its length and bytes are present; the value is their lossy decoding (valid UTF-8), and errors are `IoError` |
| NbtReadFacts.ReadTypeCode | src/read.rs:14-98 | a tag read with code `ty` has type code `ty`; codes `0x00` and above `0x0C` give `InvalidType`; scalar, string and array cases fail only with `IoError` |
| NbtReadFacts.ReadTagsContent | src/read.rs:59-61 | the list loop keeps what it was given and adds `max(n, 0)` tags, each of the list's element type |
| NbtReadFacts.ReadListContent | src/read.rs:55-63 | a list read yields `max(length, 0)` tags, all of the declared element type; a header shorter than 5 bytes gives `IoError` |
| NbtReadFacts.ReadListOfEnd | src/read.rs:55-63 | a non-empty list with element type `0x00` fails with `InvalidType` |
| NbtReadFacts.ReadEntryBadName | src/read.rs:73-74 | an entry name that is not UTF-8 fails the compound with `InvalidUtf8` |
| NbtReadFacts.ReadEntryTruncated | src/read.rs:73-74 | after a non-zero type byte, a name length or name cut off by the end of input gives `IoError` |
| NbtReadFacts.ReadEmptyDocument | src/read.rs:68-71 | an empty stream reads as an empty compound |
| NbtReadFacts.ReadRootHeader | src/read.rs:10-12 | `0A 00 00 00` reads as a compound holding one entry with an empty name and an empty compound value |
| NbtReadFacts.ReadRepeatedName | src/read.rs:76 | of two entries with the same name, the later one is kept |
| NbtReadFacts.ReadTruncatedEntry | src/read.rs:73 | a type byte followed by a truncated name length fails with `IoError`, unlike a missing type byte |
| NbtReadFacts.ReadInvalidName | src/read.rs:74 | an entry named by the byte `0xFF` fails with `InvalidUtf8` |
| NbtWrite.TypeCode | src/write.rs:27-42 | every tag's type code lies in `0x01..0x0C` |
| NbtWrite.TypeCodeOneToOne | src/write.rs:27-42 | two tags have the same type code exactly when they are the same variant |
| NbtWrite.ListTypeCode | src/write.rs:60 | a list's type byte is `0x00` exactly when the list is empty |
| NbtWrite.ArrayBytesLength | src/write.rs:52-57 | the elements of an array take `w` bytes each |
| NbtWrite.PayloadSizes | src/write.rs:44-89 | each scalar payload has its fixed width; arrays take 4 plus their elements' bytes; strings take 2 plus their bytes |
| NbtWrite.StringPrefix | src/write.rs:92-97 | a written string is its length modulo 65536 in two big-endian bytes, followed by its bytes |
| NbtWrite.ListHeader | src/write.rs:59-66 | a written list starts with its type byte and then its length as a 4-byte big-endian number |
| NbtWrite.NestedCompoundTerminated | src/write.rs:67-74 | a nested compound is the root form of its entries followed by exactly one `0x00` |
| NbtWrite.WriteDocument | src/write.rs:8-20 | writing fails exactly when the root is not a compound, and then with `InvalidType` |
| NbtWrite.Write | src/write.rs:8-20 | on a compound the sink receives exactly the document bytes and the result is success; otherwise nothing is written and the error is returned |
| NbtWrite.WriteEntries | src/write.rs:10-14 | the sink receives each entry, in the iteration order, as type byte, name and payload |
| NbtWrite.WriteEntry | src/write.rs:11-13 | the sink receives the type byte, the name as a string and the payload |
| NbtWrite.WriteType | src/write.rs:22-25 | the sink receives exactly the tag's type code |
| NbtWrite.WriteString | src/write.rs:92-97 | the sink receives exactly the string's length-prefixed encoding |
| NbtWrite.WriteElement | src/write.rs:44-89 | the sink receives exactly the tag's payload |
| NbtWrite.WriteList | src/write.rs:59-66 | the sink receives the list header and then each element's payload |
| NbtWrite.WriteArray | src/write.rs:52-57 | the sink receives the 4-byte length and then each element in `w` bytes |
| NbtRoundTrip.WriteThenRead | src/write.rs:8-20 | for a well-formed compound and any entry order, writing succeeds and reading the bytes back gives the same tag |
| NbtRoundTrip.ReadOfPayload | src/read.rs:14-98 | reading with a tag's own type code over its payload gives the tag back and stops right after the payload |
| NbtRoundTrip.ReadOfNumber | src/read.rs:17-39 | a scalar payload reads back as the same scalar |
| NbtRoundTrip.ReadOfArrayBytes | src/read.rs:44-46 | the element loop over written elements gives them back, appended to what it was given |
| NbtRoundTrip.ReadOfArrayPayload | src/read.rs:41-48 | an array payload whose length fits an `i32` reads back as the same elements |
| NbtRoundTrip.ReadOfString | src/read.rs:50-53 | a UTF-8 string of at most 65535 bytes reads back unchanged |
| NbtRoundTrip.ReadStringOfFields | src/read.rs:50-53 | a string read over a length and that many bytes yields their lossy decoding and stops after them |
| NbtRoundTrip.ReadOfListTag | src/read.rs:55-63 | a well-formed list payload reads back as the same list |
| NbtRoundTrip.ReadOfListPayloads | src/read.rs:59-61 | the list loop over written elements of one type gives them back, appended to what it was given |
| NbtRoundTrip.ReadOfCompoundTag | src/read.rs:65-79 | a nested compound payload reads back as the same compound, its `0x00` consumed |
| NbtRoundTrip.ReadOfEntries | src/read.rs:65-79 | the entry loop over written entries, followed by a terminator or the end, adds exactly those entries |
| NbtReadShape.ReadShaped | src/read.rs:14-98 | every tag the reader produces is one the writer encodes faithfully: UTF-8 strings, array and list lengths below 2^31, lists of one type, names UTF-8 of at most 65535 bytes |
| NbtReadShape.ReadArrayShort | src/read.rs:41-48 | an array read has fewer than 2^31 elements, its length being an `i32` |
| NbtReadShape.ReadListShaped | src/read.rs:55-63 | a list read has fewer than 2^31 elements, all of the one element type, each shaped |
| NbtReadShape.ReadTagsShaped | src/read.rs:59-61 | the list loop adds only shaped tags |
| NbtReadShape.ReadEntriesShaped | src/read.rs:65-79 | the entry loop adds only shaped values, under UTF-8 names of at most 65535 bytes |
| NbtReadShape.ReadWriteRead | src/read.rs:10-12 | for bytes that read as a document whose strings fit a `u16` length, writing the result back (in any entry order) succeeds and reads as the same document |
| LegacyParser.NeedIo | src/parser.rs:39-43 | a missing value becomes `IoError` and a present one passes through unchanged |
| LegacyParser.ParseTypeAt | src/parser.rs:73-140 | a successful parse leaves the cursor between its start and the end, and no error is ever `InvalidLength` |
| LegacyParser.ParseStringAt | src/parser.rs:102-105 | a parsed string is valid UTF-8 after its 2-byte length; errors are only `IoError` or `InvalidUtf8` |
| LegacyParser.ParseListAt | src/parser.rs:106-114 | a successful list parse consumes at least its 5-byte header, and no error is `InvalidLength` |
| LegacyParser.ParseTagsAt | src/parser.rs:110-112 | the list loop never moves the cursor backwards or past the end, and no error is `InvalidLength` |
| LegacyParser.ParseEntriesAt | src/parser.rs:115-129 | the entry loop never moves the cursor backwards or past the end, and no error is `InvalidLength` |
| LegacyParser.ParseEntriesStep | src/parser.rs:123-126 | an entry with a valid name and payload is inserted under its name and the loop continues after it |
| LegacyParser.ParseEntriesStop | src/parser.rs:118-121 | a `0x00` type byte, or end-of-stream, ends the compound with the entries parsed so far |
| LegacyParser.ParseEnd | src/parser.rs:75 | code `0x00` yields `EndTag` and consumes nothing |
| LegacyParser.ParseEndTags | src/parser.rs:110-112 | a list loop of element type `0x00` yields `max(n, 0)` `EndTag`s and consumes nothing |
| LegacyParser.ParseListOfEnd | src/parser.rs:106-114 | a list with element type `0x00` parses as `max(length, 0)` `EndTag`s right after its header |
| LegacyParser.ParseListHeader | src/parser.rs:107-108 | a list with fewer than 5 header bytes fails with `IoError`; a negative length gives an empty list |
| LegacyParser.ParseUnsupported | src/parser.rs:94-138 | apart from lists and compounds, a code gives `InvalidType` exactly when it is an array code or above `0x0C` |
| LegacyParser.ParseScalar | src/parser.rs:76-93 | a scalar parse succeeds exactly when its width of bytes remains, decodes the same value as the reader, and otherwise fails with `IoError` |
| LegacyParser.ParseStringContent | src/parser.rs:102-105 | a string parses exactly when its bytes are present and valid UTF-8, and then is those bytes; `InvalidUtf8` exactly when present and invalid; `IoError` exactly when they are missing |
| LegacyParser.ParseEntryBadName | src/parser.rs:123-124 | an entry name that is not UTF-8 fails the compound with `InvalidUtf8` |
| LegacyParser.ParseEntryTruncated | src/parser.rs:123-124 | after a non-zero type byte, a name length or name cut off by the end of input gives `IoError` |
| LegacyParser.ParseRootHeader | src/parser.rs:69-71 | `0A 00 00 00` parses as a compound holding one entry with an empty name and an empty compound value |
| LegacyParser.StrictVersusLossy | src/parser.rs:102-105 | the string entry `a` holding the byte `0xFF` fails to parse with `InvalidUtf8`, while the reader turns it into U+FFFD |
| LegacyParser.EndListVersusReader | src/parser.rs:75 | a two-element list of element type `0x00` parses as two `EndTag`s, while the reader rejects it with `InvalidType` |
| LegacyParser.Parse | src/parser.rs:69-71 | parsing a stream is parsing a compound body from its cursor, with the same result and final position |
| LegacyParser.ParseType | src/parser.rs:73-140 | the dispatch over a stream agrees with `ParseTypeAt` in result and final position |
| LegacyParser.ParseString | src/parser.rs:102-105 | the string case over a stream agrees with `ParseStringAt` |
| LegacyParser.ParseList | src/parser.rs:106-114 | the list case over a stream agrees with `ParseListAt` |
| LegacyParser.ParseCompound | src/parser.rs:115-129 | the compound loop over a stream agrees with `ParseEntriesAt` |
| LegacyGetters.GetAsByte | src/getters.rs:5-10 | returns a value exactly when the tag is a Byte, and that value is the tag's |
| LegacyGetters.GetAsShort | src/getters.rs:12-17 | returns a value exactly when the tag is a Short, and that value is the tag's |
| LegacyGetters.GetAsInt | src/getters.rs:19-24 | returns a value exactly when the tag is an Int, and that value is the tag's |
| LegacyGetters.GetAsLong | src/getters.rs:26-31 | returns a value exactly when the tag is a Long, and that value is the tag's |
| LegacyGetters.GetAsFloat | src/getters.rs:33-38 | returns a value exactly when the tag is a Float, and that value is the tag's |
| LegacyGetters.GetAsDouble | src/getters.rs:40-45 | returns a value exactly when the tag is a Double, and that value is the tag's |
| LegacyGetters.GetAsByteArray | src/getters.rs:47-52 | returns a value exactly when the tag is a byte array, and that value is the tag's |
| LegacyGetters.GetAsString | src/getters.rs:54-59 | returns a value exactly when the tag is a String, and that value is the tag's |
| LegacyGetters.GetAsList | src/getters.rs:61-66 | returns a value exactly when the tag is a List, and that value is the tag's |
| LegacyGetters.GetAsCompound | src/getters.rs:68-73 | returns a value exactly when the tag is a Compound, and that value is the tag's |
| LegacyGetters.GetAsIntArray | src/getters.rs:75-80 | returns a value exactly when the tag is an int array, and that value is the tag's |
| LegacyGetters.GetAsLongArray | src/getters.rs:82-87 | returns a value exactly when the tag is a long array, and that value is the tag's |
| LegacyGetters.EndTagHasNoValue | src/getters.rs:5-87 | `EndTag` answers none of the getters |
| LegacyGetters.ExactlyOneGetter | src/getters.rs:5-87 | every other tag answers exactly one getter |

## Left out

- `src/main.rs` and `src/files.rs` are not part of this model. They hold the command line, file opening and gzip decompression, which are I/O.
- `Display` for `Tag` and `list_fmt` (src/tag.rs:42-79) are not modelled. They are text formatting, including float printing, and no codec operation depends on them.
- Floating point: `f32`/`f64` values are carried as their bit patterns. NaN payloads and float equality are not modelled.
- `io::Error` and `FromUtf8Error` payloads are collapsed into the bare `IoError` and `InvalidUtf8` variants. Only the kind of error is modelled.
- A failing or partial write is not modelled. The `Sink` always accepts every byte, and `buf.write` (src/write.rs:95) is taken to write the whole slice. So the writer's I/O error paths are absent.
- The stream's position after a failed read is left unspecified. The caller receives only the error.
- NbtTag.CountElements: the `usize` counter is unbounded, so overflow is not modelled.
- NbtWrite.Write: `HashMap` iteration order is an `Order` parameter, a function of the map alone. The model does not capture that Rust's order may differ between two maps with the same contents.
- NbtTag.TagCell.ByteMut: the `_mut` accessors return `&mut` references into the tree. The model keeps the tag in a cell and writes the new value through directly, so aliasing of the returned reference is not captured. The same holds for the other eleven `…Mut` methods.
- The readers recurse without a depth limit and allocate without a size limit. Stack overflow and allocation failure are not modelled.
- The parser's private `Parser` struct is not modelled because it is commented out (src/parser.rs:11-29).
- NbtReadFacts.ReadTypeCode: for the list and compound codes it states only that a successful read has that code. Their errors can be `InvalidType` or `InvalidUtf8` from nested tags, and those are described by `ReadListOfEnd`, `ReadEntryBadName` and the step lemmas.
- NbtRead.ReadTypeAt: its own contract states only the cursor bounds. The per-code behaviour is stated by `ReadScalar`, `ReadArrayContent`, `ReadStringContent`, `ReadListContent`, `ReadTypeCode` and `ReadOfPayload`.
- NbtRead.ReadEntriesAt: its own contract states only the cursor bounds. Its behaviour is stated by `ReadEntriesStep`, `ReadEntriesStop`, `ReadEntryTruncated`, `ReadEntryBadName`, `ReadEntriesFail` and `ReadOfEntries`.
- LegacyParser.ParseTypeAt: its own contract states only the cursor bounds and the absence of `InvalidLength`. The per-code behaviour is stated by `ParseEnd`, `ParseScalar`, `ParseStringContent`, `ParseListOfEnd` and `ParseUnsupported`.
- NbtReadShape.ReadWriteRead: read, write and read again agrees with the first read only when every string value read has at most 65535 bytes. Lossy decoding turns each invalid byte into three (`LossyOfInvalidBytes`). The writer then truncates the string's length `as u16` (src/write.rs:94), so the unconditional byte round trip does not hold for the code and is not claimed.
- The legacy parser has no write-then-parse theorem. Its strings and names are strict, so a well-formed compound without arrays would parse back as written; the model proves this only for the reader (`WriteThenRead`).
