# RestaurantManager core, modelled in Dafny

RestaurantManager is a small client/server system for scheduling restaurant
shifts. A server keeps tables of shifts, of the workers assigned to them and
of access tokens. Clients connect over TCP, authorize with a token, and then
query, insert, edit and delete shifts and workers. After every change the
server broadcasts a synchronisation packet, so that each client's local cache
follows its tables.

This project models the core of that system and proves properties of the model:

- **The binary codec** (module `Binary`, on top of `Wire` and `Errors`). It
  covers primitives in native byte order, length-prefixed narrow and wide
  strings, and counted sets.
  - It runs over `std::istream`/`std::ostream` states, including their
    `good()` flag, short reads and writes past the end of the buffer.
  - Every encoder has a round-trip lemma.
- **The payloads** (`Serial`, `Calendar`, `Schedule`, `Packets`).
  - Each payload is written as its one-byte type tag, then its base-class
    fields, then its own fields.
  - `deserialize` accepts only the receiver's own tag and goes through the
    validating setters.
  - Every packet class round-trips.
  - The nested `new_instance`/`get_instance` decoding is modelled as the
    source does it.
- **The type registry** (`Registry`, `Models`): the `TYPES` table, the
  `is_assignable` walk up the parent chain, `register_type`, the checks
  `new_instance` makes in their order, and the class hierarchy that
  `register_models` installs.
- **The memory buffer** `memory_buf` (`Buffers`): a class over an array, with
  in-place `setLength`, `setData`, `dispose` and cursor seeks.
- **The connection** (`Connections`):
  - observers and the handler table, dispatched by exact tag;
  - request ids, which skip 0;
  - the length-prefixed frame bounded by `MAX_PACKET_SIZE`;
  - the send and receive loops;
  - `connect(socket)` id assignment;
  - the at-most-once disconnect.
- **The server** (`Store`, `Manager`, `Permissions`, `Bags`):
  - Table operations are functions on a table value, and class
    `RestaurantManager` applies them to its fields.
  - This covers id allocation, the shift collision check, permission gating
    of every handler, unassigning a deleted worker, and the snapshot
    `serialize`/`deserialize`.
- **The client** (`Client`, `Text`):
  - the local cache and its day index;
  - the reply and synchronisation handlers;
  - the request path through `ensureConnected`;
  - the string helpers of `utils.cpp`.

The central results connect the parts:

- Every packet class decodes what it encodes.
- The server's tables keep their day index sound through every operation.
- A client whose cache mirrors the server's tables still mirrors them after
  it applies the synchronisation packets of any answered request. The reply
  to that request then has nothing left to change (`Client.FollowsAnswer`,
  `Client.ReplyAfterSync`).

Fixed platform choices:

- `int` is 4 bytes, `size_t` 8, `content_len_t` 8 and `wchar_t` 2 (the
  MSVC target). Native byte order is little-endian.
- `identity_t` is an unsigned 64-bit integer.
- Fixed-width arithmetic (the u8 truncation in `setWorkHours`, `npos + 1`
  in `rtrim`, the 32-bit request counter) is written out with explicit
  moduli.

Where the code and its documentation disagree, the model follows the code.
For example, `write_wstring` returns the character count, not the number of
bytes it wrote (`Binary.OStream.WriteWString`).

`BaseLibrary/abstractions.h` holds an older inline copy of `memory_buf`. Its
`updateBuffer`, `calcOffset`, `seekoff`, `seekpos`, `setLength` and `setData`
have the same bodies as those in `BaseLibrary/buffers.cpp`. Its two
constructors and `dispose` match `BaseLibrary/buffers.h`. Module `Buffers`
therefore stands for both.

## Model

| member | source | states |
|---|---|---|
| Wire.LE | BaseLibrary/binary.h:16-22 | the image `write_primitive` copies for an n-byte value is exactly n bytes long |
| Wire.FromLE | BaseLibrary/binary.h:45-52 | the value `read_primitive` assembles from n bytes is below 256^n |
| Wire.FromLEOfLE | BaseLibrary/binary.h:16-52 | reading back the n-byte image of any x yields x reduced modulo 256^n, the truncation of a store into n bytes |
| Wire.LERoundTrip | BaseLibrary/binary.h:16-52 | a value that fits in n bytes is read back unchanged |
| Wire.LEOfFromLE | BaseLibrary/binary.h:16-52 | every n-byte sequence is the image of the value read from it, so the byte image is a bijection |
| Wire.I32Bits | BaseLibrary/binary.h:16-22 | an `int` is written as its two's-complement 32-bit pattern: itself when non-negative, itself plus 2^32 when negative |
| Wire.I32OfBits | BaseLibrary/binary.h:45-52 | the `int` read from a 32-bit pattern has that pattern |
| Wire.I32BitsRoundTrip | BaseLibrary/binary.h:16-52 | an `int` survives conversion to its bit pattern and back |
| Wire.Wrap32 | BaseLibrary/ConnectionBase.cpp:74-78 | incrementing an `int` wraps: the result is congruent to the exact sum modulo 2^32 and equal to it when it fits |
| Wire.Wrap64 | BaseLibrary/RestaurantManager.h:88-92 | `uint64_t` arithmetic wraps: the result is congruent modulo 2^64 and equal when it fits |
| Binary.RawRead | BaseLibrary/binary.h:31-37 | `istream::read` of n bytes: a good stream with enough bytes hands over the next n and stays good; a short read takes what is left and fails the stream; a failed stream reads nothing |
| Binary.ReadBytes | BaseLibrary/binary.h:45-52 | `read_primitive` throws "invalid destination stream" exactly when the stream is not good, and otherwise takes the next sizeof(T) bytes |
| Binary.ReadUInt | BaseLibrary/binary.h:45-52 | an unsigned n-byte primitive read from a stream is below 256^n |
| Binary.ReadU8 | BaseLibrary/binary.h:45-52 | `read_primitive<uint8_t>` on a failed stream throws "invalid destination stream" and leaves the stream as it was |
| Binary.ReadU16 | BaseLibrary/binary.h:45-52 | the same for `uint16_t` |
| Binary.ReadU32 | BaseLibrary/binary.h:45-52 | the same for `uint32_t` |
| Binary.ReadU64 | BaseLibrary/binary.h:45-52 | the same for `uint64_t` |
| Binary.ReadI32 | BaseLibrary/binary.h:45-52 | the same for `int` |
| Binary.ReadBool | BaseLibrary/binary.h:45-52 | the same for `bool` |
| Binary.ParseMany | BaseLibrary/binary.h:155-157 | the counted loop of `read_set` only inserts: every element it starts with is in the set it returns |
| Binary.ParseSet | BaseLibrary/binary.h:152-158 | `read_set` on a failed stream throws "invalid destination stream" before reading the count |
| Binary.ParseSetPrimitive | BaseLibrary/binary.h:167-171 | `read_set_primitive` on a failed stream throws "invalid destination stream" before reading the count |
| Binary.ParseString | BaseLibrary/binary.h:59-67 | `read_string` returns a string whose length fits a `size_t`; it throws exactly when the stream is not good, with "invalid destination stream" and the stream untouched |
| Binary.WideBytes | BaseLibrary/binary.h:90-96 | the characters of a wide string occupy count * sizeof(wchar_t) bytes |
| Binary.WideChars | BaseLibrary/binary.h:104-112 | the wide characters rebuilt from count * w bytes are count code units, each below 256^w |
| Binary.ParseWString | BaseLibrary/binary.h:104-112 | `read_wstring` returns a string whose count fits a `size_t` and whose code units fit a `wchar_t`; it throws `bad_array_new_length` exactly when the stream is good and the count read times the width overflows a `size_t`, and throws anything else exactly when the stream is not good |
| Binary.Put | BaseLibrary/binary.h:16-22 | `ostream::write` keeps the stream good exactly when it was good and the bytes fit the room left, and then appends them |
| Binary.RunFits | BaseLibrary/binary.h:16-22 | a serializer run on a good stream with room for everything succeeds and appends exactly its bytes |
| Binary.RunOverflows | BaseLibrary/binary.h:16-22 | a serializer that writes more than the room left either throws or leaves the stream failed; it never ends on a good stream |
| Binary.StringOps | BaseLibrary/binary.h:75-81 | `write_string` puts the `size_t` length and then the characters |
| Binary.WStringOps | BaseLibrary/binary.h:90-96 | `write_wstring` puts the `size_t` character count and then count * sizeof(wchar_t) bytes |
| Binary.ReadUIntRoundTrip | BaseLibrary/binary.h:16-52 | an n-byte value written by `write_primitive` is read back by `read_primitive`, and the stream is left at what follows |
| Binary.ReadU64RoundTrip | BaseLibrary/binary.h:16-52 | every `uint64_t` survives `write_primitive` / `read_primitive` |
| Binary.StringRoundTrip | BaseLibrary/binary.h:59-81 | a string shorter than 2^64 bytes survives `write_string` / `read_string` and leaves the stream good |
| Binary.WideCharsOfBytes | BaseLibrary/binary.h:90-112 | the characters rebuilt from a wide string's bytes are the string itself |
| Binary.WStringRoundTrip | BaseLibrary/binary.h:90-112 | a wide string whose code units fit the width and whose byte size fits a `size_t` survives `write_wstring` / `read_wstring` |
| Binary.ParseManyRoundTrip | BaseLibrary/binary.h:151-158 | the counted loop of `read_set` over the concatenated encodings of xs inserts exactly the elements of xs |
| Binary.CountedRoundTrip | BaseLibrary/binary.h:135-158 | a count followed by an enumeration of s, each element read back by its decoder, is read back as s |
| Binary.SetTypedRoundTrip | BaseLibrary/binary.h:135-158 | a set written by `write_set_typed` in ascending order is read back as the same set by `read_set` |
| Binary.SetPrimitiveRoundTrip | BaseLibrary/binary.h:120-171 | a set of identifiers survives `write_set_primitive` / `read_set_primitive` |
| Binary.StringCountIsBytesWritten | BaseLibrary/binary.h:75-81 | the value `write_string` returns, the length plus sizeof(size_t), is the number of bytes it puts |
| Binary.UIntInverts | BaseLibrary/binary.h:16-52 | the reader of an n-byte field inverts its writer for every value that fits |
| Binary.U8RoundTrip | BaseLibrary/binary.h:16-52 | every `uint8_t` survives `write_primitive` / `read_primitive` |
| Binary.U16RoundTrip | BaseLibrary/binary.h:16-52 | every `uint16_t` survives `write_primitive` / `read_primitive` |
| Binary.U32RoundTrip | BaseLibrary/binary.h:16-52 | every `uint32_t` survives `write_primitive` / `read_primitive` |
| Binary.I32RoundTrip | BaseLibrary/binary.h:16-52 | every `int`, negative ones included, survives `write_primitive` / `read_primitive` |
| Binary.BoolRoundTrip | BaseLibrary/binary.h:16-52 | every `bool` survives `write_primitive` / `read_primitive` |
| Binary.StrRoundTrip | BaseLibrary/binary.h:59-81 | every `std::string` field survives `write_string` / `read_string` |
| Binary.WStrRoundTrip | BaseLibrary/binary.h:90-112 | every `std::wstring` field survives `write_wstring` / `read_wstring` |
| Binary.IStream.ReadPrimitive | BaseLibrary/binary.h:31-37 | the method's result and the stream's new state are those of `read_primitive` |
| Binary.IStream.ReadString | BaseLibrary/binary.h:59-67 | the method's result and the stream's new state are those of `read_string` |
| Binary.IStream.ReadWString | BaseLibrary/binary.h:104-112 | the method's result and the stream's new state are those of `read_wstring` |
| Binary.ReadStr | BaseLibrary/binary.h:59-67 | a `std::string` read with `read_string` throws exactly when the stream is not good |
| Binary.ReadWStr | BaseLibrary/binary.h:104-112 | a `std::wstring` read with `read_wstring` throws "invalid destination stream" on a failed stream |
| Binary.IStream.ReadSet | BaseLibrary/binary.h:151-158 | the loop reading `len` elements leaves the set and the stream as `read_set` specifies |
| Binary.IStream.ReadSetPrimitive | BaseLibrary/binary.h:166-171 | the method's result and the stream's new state are those of `read_set_primitive` |
| Binary.OStream.WritePrimitive | BaseLibrary/binary.h:16-22 | returns sizeof(T) on success and leaves the stream as the checked write does |
| Binary.OStream.WriteString | BaseLibrary/binary.h:75-81 | returns the bytes written and leaves the stream as `write_string`'s writes do |
| Binary.OStream.WriteWString | BaseLibrary/binary.h:90-96 | returns the character count and leaves the stream as `write_wstring`'s writes do |
| Binary.OStream.WriteSetTyped | BaseLibrary/binary.h:135-142 | the loop writing the count and then each element in ascending order leaves the stream as `write_set_typed` specifies |
| Binary.OStream.WriteSetPrimitive | BaseLibrary/binary.h:120-127 | the method leaves the stream as `write_set_primitive`'s writes do |
| Serial.SignedChar | BaseLibrary/Serializable.h:72-79 | the byte read into a (signed) `char` lies in -128..127 and equals the byte exactly when the byte is below 128 |
| Serial.CheckTagAccepts | BaseLibrary/Serializable.h:72-80 | `deserialize` accepts the leading byte exactly when it is the receiver's own type, and otherwise throws "incompatible object type" |
| Serial.TagOpsBytes | BaseLibrary/Serializable.h:62-65 | `serialize` of the base part writes one byte: the receiver's type |
| Serial.TagRoundTrip | BaseLibrary/Serializable.h:62-80 | a receiver reads back its own type byte and rejects the byte of every other type |
| Serial.CheckTagBadStream | BaseLibrary/Serializable.h:72-75 | on a failed stream `deserialize` throws before reading anything |
| Serial.TagOps | BaseLibrary/Serializable.h:62-65 | the base part of `serialize`: `write_primitive` of the receiver's type; its bytes are stated by `Serial.TagOpsBytes` |
| Serial.CheckTag | BaseLibrary/Serializable.h:72-80 | the base part of `deserialize` only ever accepts the receiver's own type, and on a failed stream throws "invalid destination stream" before reading |
| Numerals.Digit | BaseLibrary/Serializable.h:78 | a digit character denotes its own value |
| Numerals.Decimal | BaseLibrary/Serializable.h:78 | `std::to_string` of a non-negative number is a non-empty string of digits without a leading zero |
| Numerals.DecimalValue | BaseLibrary/Serializable.h:78 | the decimal rendering reads back as the number it renders |
| Numerals.DecimalInjective | BaseLibrary/Serializable.h:78 | two numbers have the same rendering exactly when they are equal |
| Numerals.SignedDecimal | BaseLibrary/Serializable.h:78 | `std::to_string` of a signed value starts with '-' exactly when it is negative, followed by the magnitude's digits |
| Ordering.LeastExists | BaseLibrary/binary.h:120-142 | every non-empty finite set has a least element under a strict total order, the one a `std::set` hands out first |
| Ordering.LeastUnique | BaseLibrary/binary.h:120-142 | that least element is unique |
| Ordering.Sorted | BaseLibrary/binary.h:120-142 | the iteration order of a `std::set`: exactly the set's elements, each once, strictly ascending |
| Ordering.SortedSingleton | BaseLibrary/binary.h:120-142 | a one-element set is enumerated as that element alone |
| Ordering.SeqLess | BaseLibrary/ShiftWorker.h:142-146 | the lexicographic comparison of strings is irreflexive and puts a proper prefix first |
| Ordering.SeqLessTransitive | BaseLibrary/ShiftWorker.h:142-146 | the lexicographic comparison of strings is transitive |
| Ordering.SeqLessConnected | BaseLibrary/ShiftWorker.h:142-146 | any two different strings are ordered one way or the other |
| Ordering.SeqLessTotal | BaseLibrary/ShiftWorker.h:142-146 | string comparison is a strict total order, as `std::set` and `std::map` require |
| Calendar.MakeDate | BaseLibrary/Date.h:37-41 | `Date(int, int, int)` stores the three fields without validation; values that fit their widths are kept as given |
| Calendar.SetYear | BaseLibrary/Date.h:55-60 | `setYear` succeeds exactly for a non-negative year, changes only the year, and otherwise throws `invalid_argument("Invalid year")` |
| Calendar.SetMonth | BaseLibrary/Date.h:74-79 | `setMonth` succeeds exactly for 1..12, changes only the month, and otherwise throws `invalid_argument("Invalid month")` |
| Calendar.SetDay | BaseLibrary/Date.h:93-98 | `setDay` succeeds exactly for 1..31, changes only the day, and otherwise throws `invalid_argument("Invalid day")` |
| Calendar.SettersBuildValidDates | BaseLibrary/Date.h:108-114 | the dates `deserialize`'s setters can build from any receiver are exactly the valid dates |
| Calendar.DateLessTotal | BaseLibrary/Date.h:129-131 | `operator<` on (year, month, day) is a strict total order whose equivalence is `operator==` |
| Calendar.DateDerivedOrders | BaseLibrary/Date.h:133-143 | `<=` and `>=`, written as negations of `<`, mean "less or equal" and "greater or equal" |
| Calendar.DateRoundTrip | BaseLibrary/Date.h:100-114 | a date written by `serialize` is read back by `deserialize` exactly when it is valid; an invalid field makes a setter throw `invalid_argument` |
| Calendar.DateWrongTag | BaseLibrary/Date.h:100-114 | a receiver of another class refuses a date's bytes |
| Calendar.SetDate | BaseLibrary/Date.h:108-114 | the setters `deserialize` applies succeed exactly for a non-negative year, a month in 1..12 and a day in 1..31, and then yield a valid date |
| Calendar.DateLess | BaseLibrary/Date.h:129-131 | `operator<` on (year, month, day); that it is a strict total order is `Calendar.DateLessTotal` |
| Calendar.DateOps | BaseLibrary/Date.h:100-106 | `Date::serialize`: the tag, then year, month and day; its inverse is stated by `Calendar.DateRoundTrip` |
| Calendar.DecodeDate | BaseLibrary/Date.h:108-114 | `Date::deserialize` yields only valid dates, and on a failed stream throws "invalid destination stream" before reading |
| Calendar.SetHour | BaseLibrary/DateTime.h:73-78 | `setHour` succeeds exactly for 0..23, changes only the hour, and otherwise throws `invalid_argument("Invalid hour")` |
| Calendar.SetMinute | BaseLibrary/DateTime.h:92-97 | `setMinute` succeeds exactly for 0..59, changes only the minute, and otherwise throws |
| Calendar.SetSecond | BaseLibrary/DateTime.h:111-116 | `setSecond` succeeds exactly for 0..59, changes only the second, and otherwise throws |
| Calendar.MakeDateTime | BaseLibrary/DateTime.h:55-59 | the six-argument constructor succeeds exactly when the time of day is valid, storing the date part unvalidated |
| Calendar.DateTimeOf | BaseLibrary/DateTime.h:44 | `DateTime(date, hour, minute, second)` succeeds exactly when the time is valid and keeps the date as given |
| Calendar.DefaultDateTimes | BaseLibrary/DateTime.h:29-35 | `DateTime()` is 1970-01-01 00:00:00 and `DateTime(date)` is midnight of that date |
| Calendar.GetDate | BaseLibrary/DateTime.h:122-124 | `getDate` drops the time: the date and the original time rebuild the original exactly when that time is valid |
| Calendar.DateTimeLessTotal | BaseLibrary/DateTime.h:157-160 | `operator<` on (date, hour, minute, second) is a strict total order |
| Calendar.DateTimeRoundTrip | BaseLibrary/DateTime.h:127-141 | a date-time is read back by `deserialize` exactly when it is valid; otherwise a setter throws `invalid_argument` |
| Calendar.SetTime | BaseLibrary/DateTime.h:55-59 | the three time setters succeed exactly for an hour in 0..23 and a minute and second in 0..59, and keep the date |
| Calendar.DateTimeLess | BaseLibrary/DateTime.h:157-160 | `operator<` on (date, hour, minute, second); that it is a strict total order is `Calendar.DateTimeLessTotal` |
| Calendar.DateTimeOps | BaseLibrary/DateTime.h:127-133 | `DateTime::serialize`: the date part, then hour, minute and second; its inverse is stated by `Calendar.DateTimeRoundTrip` |
| Calendar.DecodeDateTime | BaseLibrary/DateTime.h:135-141 | `DateTime::deserialize` yields only valid date-times, and on a failed stream throws "invalid destination stream" before reading |
| Schedule.SetWorkHours | BaseLibrary/Shift.h:97-101 | `setWorkHours` succeeds exactly when the duration is at least one hour and the shift ends by hour 23 of its start day, changes only the duration, and otherwise throws `invalid_argument("Invalid shift duration")` |
| Schedule.MakeShift | BaseLibrary/Shift.h:41-47 | the constructor narrows the `int` duration to `uint8_t` (modulo 256), sets the start time first, and succeeds exactly when the narrowed duration is valid for it |
| Schedule.DefaultShiftIsBuilt | BaseLibrary/Shift.h:31 | `Shift()` is 1970-01-01 00:00 for one hour with no job name and ids 0, and it is a valid shift |
| Schedule.SetWorkHoursKeepsValid | BaseLibrary/Shift.h:97-101 | a duration the setter accepts leaves a valid shift whenever the start time is valid |
| Schedule.GetEndTime | BaseLibrary/Shift.h:71-75 | `getEndTime` succeeds exactly when start hour plus duration is at most 23, and is then the start with that hour |
| Schedule.EndTimeOfValidShift | BaseLibrary/Shift.h:71-101 | a valid shift has an end time on the same day, at most hour 23, strictly after its start |
| Schedule.ShiftLessTotal | BaseLibrary/Shift.h:190-194 | `operator<` on (startTime, workHours, jobName, workerId, id) is a strict total order whose equivalence is `operator==`, as `std::set<Shift>` needs |
| Schedule.ShiftRoundTrip | BaseLibrary/Shift.h:154-172 | a shift written by `serialize` is read back by `deserialize` exactly when it is valid; otherwise a setter throws `invalid_argument` |
| Schedule.ShiftTailRoundTrip | BaseLibrary/Shift.h:164-172 | once a valid start time is read, the rest of a shift reads back exactly when its duration is valid for that start |
| Schedule.ShiftLess | BaseLibrary/Shift.h:190-194 | `operator<` on (startTime, workHours, jobName, workerId, id); that it is a strict total order is `Schedule.ShiftLessTotal` |
| Schedule.ShiftOps | BaseLibrary/Shift.h:154-162 | `Shift::serialize`: tag, id, the nested start time, duration, worker id, job name; its inverse is stated by `Schedule.ShiftRoundTrip` |
| Schedule.ShiftAfterStart | BaseLibrary/Shift.h:166-172 | once a valid start time is read, the rest of `deserialize` yields only valid shifts |
| Schedule.DecodeShift | BaseLibrary/Shift.h:164-172 | `Shift::deserialize` yields only valid shifts, and on a failed stream throws "invalid destination stream" before reading |
| Schedule.WDecimal | BaseLibrary/ShiftWorker.h:99 | `std::to_wstring` of an id is the decimal numeral of `std::to_string`, character for character |
| Schedule.DigitRun | BaseLibrary/ShiftWorker.h:97-100 | the maximal run of digit code units at the start of a string |
| Schedule.Narrow | BaseLibrary/ShiftWorker.h:97-100 | a run of digit code units reads as the same digit characters |
| Schedule.ToStringCarriesId | BaseLibrary/ShiftWorker.h:97-100 | the label `toString` gives a worker starts with the bracketed decimal id and that id reads back from it, so workers with different ids get different labels |
| Schedule.WorkerLessTotal | BaseLibrary/ShiftWorker.h:142-145 | `operator<` on (firstName, lastName, title, id) is a strict total order whose equivalence is `operator==` |
| Schedule.WorkerRoundTrip | BaseLibrary/ShiftWorker.h:111-127 | every worker, whatever code units its names hold, survives `serialize` / `deserialize` |
| Schedule.ToString | BaseLibrary/ShiftWorker.h:97-100 | `toString`: `[id] first last (title)`; that the id can be read back from it is `Schedule.ToStringCarriesId` |
| Schedule.ParseBracketId | BaseLibrary/ShiftWorker.h:97-100 | a left inverse of `toString` on the id, used by `Schedule.ToStringCarriesId` to show that workers with different ids get different labels |
| Schedule.WorkerLess | BaseLibrary/ShiftWorker.h:142-145 | `operator<` on (firstName, lastName, title, id); that it is a strict total order is `Schedule.WorkerLessTotal` |
| Schedule.WorkerOps | BaseLibrary/ShiftWorker.h:111-118 | `ShiftWorker::serialize`: tag, id and the three names; its inverse is stated by `Schedule.WorkerRoundTrip` |
| Schedule.DecodeWorker | BaseLibrary/ShiftWorker.h:120-127 | `ShiftWorker::deserialize` on a failed stream throws "invalid destination stream" before reading |
| Permissions.Or | BaseLibrary/UserPermissions.cpp:5-7 | `operator|` on the 16-bit values contains both operands |
| Permissions.And | BaseLibrary/UserPermissions.cpp:9-11 | `operator&` on the 16-bit values is contained in both operands |
| Permissions.FlagsAreBits | BaseLibrary/UserPermissions.h:9-17 | each named flag is its own bit, no two flags overlap, `NORMAL_USER` is `View` and `SUPER_USER` is the union of the four |
| Permissions.Spelled | BaseLibrary/UserPermissions.cpp:13-32 | the letters spelled from a table are at most one per entry and drawn from the table |
| Permissions.Has | BaseLibrary/UserPermissions.cpp:18-31 | the `(permissions & flag) != None` test behind each letter; `Permissions.LettersMatchFlags` states that a letter appears exactly when its flag is held |
| Permissions.PermissionsText | BaseLibrary/UserPermissions.cpp:13-32 | `getPermissionsString` returns "NONE" exactly for the empty mask |
| Permissions.TextLetters | BaseLibrary/UserPermissions.cpp:18-31 | for a non-empty mask the text is "C" if Insert, then "R" if View, then "U" if Edit, then "D" if Delete |
| Permissions.PermissionsString | BaseLibrary/UserPermissions.cpp:13-32 | the method appending one letter per flag held returns exactly the text of the mask |
| Permissions.LettersMatchFlags | BaseLibrary/UserPermissions.cpp:18-31 | a non-empty mask's text contains each letter exactly when the mask holds that letter's flag |
| Permissions.RoleTexts | BaseLibrary/UserPermissions.cpp:13-32 | `SUPER_USER` reads "CRUD", `NORMAL_USER` reads "R", and a non-empty mask with none of the four flags reads "" |
| Permissions.LowNibble | BaseLibrary/UserPermissions.h:9-17 | the four flags of a mask are the bits of its low nibble |
| Permissions.TextDeterminesFlags | BaseLibrary/UserPermissions.cpp:13-32 | two non-empty masks have the same text exactly when they agree on the four flags |
| Bags.Lookup | BaseLibrary/DataBag.h:59-65 | `get` hands back the stored value under a present key and the fallback under a missing one |
| Bags.DataBag.constructor | BaseLibrary/DataBag.h:10-12 | a new bag holds nothing |
| Bags.DataBag.Put | BaseLibrary/DataBag.h:32-35 | `put` replaces whatever was stored under the key with a copy of the value, which every later `get` of that key returns |
| Bags.DataBag.Get | BaseLibrary/DataBag.h:44-50 | `get` returns the stored value under a present key and the fallback otherwise |
| Bags.LookupAfterPut | BaseLibrary/DataBag.h:32-65 | a `put` changes what its own key reads and leaves every other key's reading alone |
| Bags.PutTwice | BaseLibrary/DataBag.h:32-35 | putting a key twice keeps only the second value |
| Registry.ClassParent | BaseLibrary/models.h:34-59 | every class's base is `Serializable` itself, `Date`, `TrackablePacket` or `TransactionReply` |
| Registry.ClassName | BaseLibrary/serialization.h:73 | `typeid(T).name()` as MSVC spells it for each registered class; `Registry.TypeName` states that the name is the one registered under the tag |
| Registry.Walk | BaseLibrary/serialization.h:51-59 | the climb up registered parents that `is_assignable` performs, bounded by a step count; `Registry.WalkFuel` states that on an acyclic table the bound never cuts the climb short |
| Registry.Assignable | BaseLibrary/serialization.h:51-59 | `is_assignable` holds for a type and itself, and fails for different types when the right-hand one is unregistered |
| Registry.WalkFuel | BaseLibrary/serialization.h:51-59 | on an acyclic table the walk up the parent chain gives the same answer for any step budget that outlasts the chain |
| Registry.WalkThrough | BaseLibrary/serialization.h:51-59 | a type met on the chain of a type met on c's chain is met on c's chain |
| Registry.AssignableTransitive | BaseLibrary/serialization.h:51-59 | `is_assignable` is transitive on an acyclic table |
| Registry.UnknownIsAncestor | BaseLibrary/serialization.h:51-59 | in a closed table without an entry for `Unknown`, the walk from any registered type reaches `Unknown` |
| Registry.UnknownAssignableFromAll | BaseLibrary/serialization.h:51-59 | in such a table every registered type is assignable to `Unknown` |
| Registry.TypeName | BaseLibrary/serialization.h:94-99 | `get_type_name` is the registered name when there is one, and otherwise `#` followed by the tag in decimal |
| Registry.NewInstance | BaseLibrary/serialization.h:138-154 | `new_instance<T>(baseType, type)` succeeds exactly when the base is `Unknown` or registered, the target is registered, assignable to the base and has a constructor, and builds the target's class; the two registration errors come first, in that order, with their messages |
| Registry.NewAnyInstance | BaseLibrary/serialization.h:160-170 | the non-generic `new_instance(type)` succeeds exactly for a registered type with a constructor, and an unregistered one throws "unregistered target type" |
| Registry.NewInstanceFromUnknown | BaseLibrary/serialization.h:138-170 | in a closed table, `new_instance<T>` with base `Unknown` answers exactly as the non-generic `new_instance` |
| Registry.Peek | BaseLibrary/serialization.h:185-190 | the tag peek throws exactly on a failed stream, leaves a good stream with a byte unchanged, and on an exhausted one reads tag 0 and fails the stream |
| Registry.NewInstanceFrom | BaseLibrary/serialization.h:184-190 | `new_instance<T>(baseType, source)` answers as `new_instance<T>` for the stream's first byte, without consuming it |
| Registry.NewAnyInstanceFrom | BaseLibrary/serialization.h:209-214 | `new_instance(source)` answers as `new_instance(type)` for the stream's first byte, without consuming it |
| Registry.TypeRegistry.constructor | BaseLibrary/serialization.h:14-31 | the tables start empty, trivially acyclic |
| Registry.TypeRegistry.RegisterType | BaseLibrary/serialization.h:67-74 | a type already registered throws "the specified type is already registered" and changes nothing; otherwise the entry is stored with the class's constructor, parent and name |
| Registry.TypeRegistry.RegisterBaseType | BaseLibrary/serialization.h:121-128 | as `register_type`, but with a null constructor, and the class recorded in `NATIVE_TYPES` under the tag |
| Registry.TypeRegistry.GetType | BaseLibrary/serialization.h:80-88 | `get_type<T>` returns the tag recorded for T, recording T's own tag on first use |
| Registry.TypeRegistry.RegisterDerived | BaseLibrary/serialization.h:101-114 | `register_type<T>()` and `register_derived<T>(parent)`: T's tag from `get_type`, then `register_type` |
| Registry.TypeRegistry.RegisterDerivedOf | BaseLibrary/serialization.h:106-109 | `register_derived<T, TParent>()`: both tags from `get_type`, then `register_type` |
| Registry.TypeRegistry.IsAssignable | BaseLibrary/serialization.h:51-59 | the loop following registered parents returns exactly `is_assignable`'s answer, and stops on an acyclic table |
| Models.Position | BaseLibrary/models.h:33-61 | each class's place in the registration order, 23 for a class never registered |
| Models.OrderPositions | BaseLibrary/models.h:33-61 | `register_models` registers 23 distinct classes |
| Models.ParentsFirst | BaseLibrary/models.h:33-61 | every class is registered after its parent |
| Models.InstallNext | BaseLibrary/models.h:33-61 | each registration of `register_models` adds a class not yet present |
| Models.NoChildYet | BaseLibrary/models.h:33-61 | no class registered earlier names the next class as its parent, so each registration keeps the chains acyclic |
| Models.PrefixSize | BaseLibrary/models.h:33-61 | the first k registrations install k classes |
| Models.ModelTypesRanked | BaseLibrary/models.h:33-61 | the table `register_models` builds has acyclic parent chains |
| Models.DeriveBase | BaseLibrary/models.h:34-35 | `register_base_type` as `register_models` calls it installs the next entry on a fresh registry and throws on a populated one |
| Models.Derive | BaseLibrary/models.h:37-59 | `register_type<T>()` or `register_derived<T>(parent)` as `register_models` calls it installs the next entry on a fresh registry |
| Models.DeriveOf | BaseLibrary/models.h:40 | `register_derived<DateTime, Date>()` installs the next entry on a fresh registry |
| Models.RegisterRoots | BaseLibrary/models.h:34-38 | the first four registrations install the two base packet types, `Ping` and `PingReply` |
| Models.RegisterValues | BaseLibrary/models.h:39-43 | registrations 4 to 8 install `Date`, `DateTime`, `Shift`, `ShiftWorker` and `S2C_ClientSync` |
| Models.RegisterRequests | BaseLibrary/models.h:44-48 | registrations 9 to 12 install four requests under `TrackablePacket` |
| Models.RegisterEdits | BaseLibrary/models.h:49-51 | registrations 13 to 15 install the remaining requests under `TrackablePacket` |
| Models.RegisterReplies | BaseLibrary/models.h:52-56 | registrations 16 to 19 install four replies under `TransactionReply` |
| Models.RegisterResults | BaseLibrary/models.h:57-59 | registrations 20 to 22 install the remaining replies under `TransactionReply` |
| Models.RegisterModels | BaseLibrary/models.h:33-61 | on an empty registry `register_models` installs exactly the model table, acyclic; run again, it throws at its first registration and changes nothing |
| Models.ModelEntries | BaseLibrary/models.h:33-61 | the classes registered are exactly tags 1..24 except `RestaurantManager`, each with its C++ parent and name, and only the two base packet types lack a constructor |
| Models.ModelClosed | BaseLibrary/models.h:33-61 | every parent named is registered except `Unknown`, which is not, and there are 23 entries |
| Models.WalkModel | BaseLibrary/serialization.h:51-59 | over the installed table the parent walk from a class meets exactly its ancestors |
| Models.ModelAssignable | BaseLibrary/serialization.h:51-59 | after `register_models` a class is assignable to itself and to its C++ ancestors, and to nothing else |
| Models.ModelNewAnyInstance | BaseLibrary/serialization.h:160-170 | after `register_models` `new_instance(type)` builds exactly the concrete classes, each as itself |
| Models.ManagerNotInstantiable | BaseLibrary/serialization.h:160-163 | `RestaurantManager` has a tag but no registration, so building one throws "unregistered target type #5" |
| Models.NewDateInstance | BaseLibrary/serialization.h:138-154 | `new_instance<Date>` accepts a `Date` or a `DateTime` tag and no other |
| Models.NewLeafInstance | BaseLibrary/serialization.h:138-154 | `new_instance<Shift>` and `new_instance<ShiftWorker>` accept their own tag and no other |
| Packets.TrackRoundTrip | BaseLibrary/TrackablePacket.h:43-53 | the request id written under a class's tag reads back unchanged under that tag, and reading under any other tag fails |
| Packets.TrackOps | BaseLibrary/TrackablePacket.h:43-47 | `TrackablePacket::serialize`: the class's tag, then the request id; read back by `Packets.TrackRoundTrip` |
| Packets.DecodeTrack | BaseLibrary/TrackablePacket.h:49-53 | `TrackablePacket::deserialize` on a failed stream throws "invalid destination stream" before reading |
| Packets.SucceededReply | BaseLibrary/TransactionReply.h:26 | `TransactionReply(id)` is a success with the given id and an empty message |
| Packets.FailedReply | BaseLibrary/TransactionReply.h:33 | `TransactionReply(id, msg)` is a failure with the given id carrying msg |
| Packets.SetSuccess | BaseLibrary/TransactionReply.h:58-60 | `setSuccess` changes the flag and keeps the id and the message |
| Packets.SetErrorMsg | BaseLibrary/TransactionReply.h:74-77 | `setErrorMsg` marks the reply failed with the new message and keeps the id |
| Packets.ReplySetters | BaseLibrary/TransactionReply.h:26-77 | failing a successful reply equals the failure constructor; clearing the failure keeps the message; failing twice with the same message changes nothing |
| Packets.ReplyRoundTrip | BaseLibrary/TransactionReply.h:79-91 | id, success flag and message written under a reply class's tag read back unchanged under that tag, and fail under any other |
| Packets.ReplyOps | BaseLibrary/TransactionReply.h:79-84 | `TransactionReply::serialize`: the tracked part, the success flag, the message; read back by `Packets.ReplyRoundTrip` |
| Packets.DecodeReply | BaseLibrary/TransactionReply.h:86-91 | `TransactionReply::deserialize` on a failed stream throws "invalid destination stream" before reading |
| Packets.WithRequestId | BaseLibrary/TrackablePacket.h:31-33 | `setRequestId` leaves a trackable packet of the same class whose id is the one set |
| Packets.RequestIdOnly | BaseLibrary/TrackablePacket.h:31-41 | setting the id changes nothing else: setting the old id back restores the packet, and setting the id it already has is the identity |
| Packets.Default | BaseLibrary/serialization.h:38-43 | the default-constructed instance the registry builds for each constructible class is of that class |
| Packets.SortedKeys | BaseLibrary/S2C_GetWorkersReply.h:57-65 | the `std::map` iteration order: every key exactly once, strictly ascending |
| Packets.DeserializerOf | BaseLibrary/Serializable.h:72-80 | the `deserialize` override selected for each of the 21 constructible classes |
| Packets.NestedDateRoundTrip | BaseLibrary/serialization.h:184-190 | a nested `Date` read by `new_instance<Date>` then `deserialize` comes back exactly when it is valid; an invalid one throws `invalid_argument` |
| Packets.NestedDateOfDateTime | BaseLibrary/serialization.h:184-190 | where a `Date` is expected, a valid `DateTime` is accepted as a derived class and sliced to its date; an invalid one throws `invalid_argument` |
| Packets.NestedDateRejects | BaseLibrary/serialization.h:184-190 | a leading tag other than `Date` or `DateTime` makes the nested read throw |
| Packets.DecodeNestedDate | BaseLibrary/serialization.h:184-190 | a nested `Date` read with `new_instance_from` is always a valid date |
| Packets.DecodeNestedShift | BaseLibrary/serialization.h:221-226 | a nested `Shift` read with `new_instance_from` is always a valid shift |
| Packets.DecodeNestedWorker | BaseLibrary/serialization.h:221-226 | a nested `ShiftWorker` read with `new_instance_from`; read back by `Packets.NestedWorkerRoundTrip`, refused under other tags by `Packets.NestedWorkerRejects` |
| Packets.NestedShiftRoundTrip | BaseLibrary/serialization.h:221-226 | a nested `Shift` comes back exactly when it is valid; an invalid one throws `invalid_argument` |
| Packets.NestedShiftRejects | BaseLibrary/serialization.h:221-226 | a leading tag other than `Shift` makes the nested read throw |
| Packets.NestedWorkerRoundTrip | BaseLibrary/serialization.h:221-226 | every nested `ShiftWorker` comes back unchanged |
| Packets.NestedWorkerRejects | BaseLibrary/serialization.h:221-226 | a leading tag other than `ShiftWorker` makes the nested read throw |
| Packets.ShiftSetRoundTrip | BaseLibrary/binary.h:135-158 | a set of valid shifts written by `write_set_typed` is read back by `read_set` as the same set |
| Packets.WorkerSetRoundTrip | BaseLibrary/binary.h:135-158 | every set of workers written by `write_set_typed` is read back by `read_set` as the same set |
| Packets.ShiftSetOps | BaseLibrary/binary.h:135-142 | `write_set_typed` of a shift set, in `operator<` order; read back by `Packets.ShiftSetRoundTrip` |
| Packets.WorkerSetOps | BaseLibrary/binary.h:135-142 | `write_set_typed` of a worker set, in `operator<` order; read back by `Packets.WorkerSetRoundTrip` |
| Packets.EntriesRoundTrip | BaseLibrary/S2C_GetWorkersReply.h:60-76 | the (id, worker) pairs for a list of keys, read back into a map, add exactly those keys with their workers |
| Packets.WorkerMapRoundTrip | BaseLibrary/S2C_GetWorkersReply.h:57-78 | every id-to-worker map survives the count-then-pairs layout, keys included |
| Packets.EntriesOps | BaseLibrary/S2C_GetWorkersReply.h:60-63 | the (id, worker) pairs written for a list of keys; read back by `Packets.EntriesRoundTrip` |
| Packets.WorkerMapOps | BaseLibrary/S2C_GetWorkersReply.h:57-65 | the count, then the pairs in ascending key order; read back by `Packets.WorkerMapRoundTrip` |
| Packets.ParseWorkers | BaseLibrary/S2C_GetWorkersReply.h:72-76 | the read loop only adds: every id it starts with is in the map it returns |
| Packets.ParseWorkerMap | BaseLibrary/S2C_GetWorkersReply.h:67-78 | the map read on a failed stream throws "invalid destination stream" before reading the count |
| Packets.PingRoundTrip | BaseLibrary/Ping.h:11-20 | `Ping` and `PingReply` are their tag byte alone; each reads back its own byte and refuses the other's |
| Packets.AuthorizeRoundTrip | BaseLibrary/C2S_Authorize.h:47-57 | an authorize request reads back with its id and token |
| Packets.AuthorizeReplyRoundTrip | BaseLibrary/S2C_AuthorizeReply.h:59-69 | an authorize reply reads back with its reply part and permission bits |
| Packets.GetShiftsByDayRoundTrip | BaseLibrary/C2S_GetShiftsByDay.h:57-69 | a shifts-by-day request with a valid date reads back unchanged |
| Packets.GetShiftsReplyRoundTrip | BaseLibrary/S2C_GetShiftsReply.h:77-91 | a shifts reply with a valid date and valid shifts reads back with its reply part, date and shift set |
| Packets.InsertShiftRoundTrip | BaseLibrary/C2S_InsertShift.h:77-91 | an insert-shift request with a valid shift reads back with its id, shift and modify flag |
| Packets.InsertShiftReplyRoundTrip | BaseLibrary/S2C_InsertShiftReply.h:59-71 | an insert-shift reply with a valid shift reads back unchanged |
| Packets.IdRequestRoundTrip | BaseLibrary/C2S_DeleteShift.h:49-59 | a delete-shift or delete-worker request reads back with its request id and target id |
| Packets.IdReplyRoundTrip | BaseLibrary/S2C_DeleteShiftReply.h:48-58 | a delete-shift or delete-worker reply reads back with its reply part and id |
| Packets.GetWorkersRoundTrip | BaseLibrary/C2S_GetWorkers.h:11-28 | a get-workers request, which adds nothing to the trackable part, reads back with its id |
| Packets.GetWorkersReplyRoundTrip | BaseLibrary/S2C_GetWorkersReply.h:57-78 | a workers reply reads back with its reply part and the whole worker map |
| Packets.InsertWorkerRoundTrip | BaseLibrary/C2S_InsertWorker.h:79-93 | an insert-worker request reads back with its id, worker and modify flag |
| Packets.InsertWorkerReplyRoundTrip | BaseLibrary/S2C_InsertWorkerReply.h:64-78 | an insert-worker reply reads back unchanged |
| Packets.ClientSyncRoundTrip | BaseLibrary/S2C_ClientSync.h:75-91 | a sync with valid changed shifts reads back with its four sets: removed workers, removed shifts, changed workers, changed shifts |
| Packets.AuthorizeOps | BaseLibrary/C2S_Authorize.h:47-51 | `C2S_Authorize::serialize`; read back by `Packets.AuthorizeRoundTrip` |
| Packets.AuthorizeReplyOps | BaseLibrary/S2C_AuthorizeReply.h:59-63 | `S2C_AuthorizeReply::serialize`; read back by `Packets.AuthorizeReplyRoundTrip` |
| Packets.GetShiftsByDayOps | BaseLibrary/C2S_GetShiftsByDay.h:57-61 | `C2S_GetShiftsByDay::serialize`; read back by `Packets.GetShiftsByDayRoundTrip` |
| Packets.GetShiftsReplyOps | BaseLibrary/S2C_GetShiftsReply.h:77-82 | `S2C_GetShiftsReply::serialize`; read back by `Packets.GetShiftsReplyRoundTrip` |
| Packets.InsertShiftOps | BaseLibrary/C2S_InsertShift.h:77-82 | `C2S_InsertShift::serialize`; read back by `Packets.InsertShiftRoundTrip` |
| Packets.InsertShiftReplyOps | BaseLibrary/S2C_InsertShiftReply.h:59-64 | `S2C_InsertShiftReply::serialize`; read back by `Packets.InsertShiftReplyRoundTrip` |
| Packets.IdRequestOps | BaseLibrary/C2S_DeleteShift.h:49-53 | `serialize` of `C2S_DeleteShift` and `C2S_DeleteWorker`; read back by `Packets.IdRequestRoundTrip` |
| Packets.IdReplyOps | BaseLibrary/S2C_DeleteShiftReply.h:48-52 | `serialize` of `S2C_DeleteShiftReply` and `S2C_DeleteWorkerReply`; read back by `Packets.IdReplyRoundTrip` |
| Packets.GetWorkersReplyOps | BaseLibrary/S2C_GetWorkersReply.h:57-65 | `S2C_GetWorkersReply::serialize`; read back by `Packets.GetWorkersReplyRoundTrip` |
| Packets.InsertWorkerOps | BaseLibrary/C2S_InsertWorker.h:79-84 | `C2S_InsertWorker::serialize`; read back by `Packets.InsertWorkerRoundTrip` |
| Packets.InsertWorkerReplyOps | BaseLibrary/S2C_InsertWorkerReply.h:64-69 | `S2C_InsertWorkerReply::serialize`; read back by `Packets.InsertWorkerReplyRoundTrip` |
| Packets.ClientSyncOps | BaseLibrary/S2C_ClientSync.h:75-82 | `S2C_ClientSync::serialize`; read back by `Packets.ClientSyncRoundTrip` |
| Packets.DecodePing | BaseLibrary/Ping.h:11-20 | reading a `Ping` or `PingReply` yields that class, and throws on a failed stream before reading |
| Packets.DecodePingRequest | BaseLibrary/Ping.h:11-20 | deserializing into a `Ping` yields a `Ping`, and throws on a failed stream before reading |
| Packets.DecodePingReply | BaseLibrary/PingReply.h:11-20 | deserializing into a `PingReply` yields a `PingReply`, and throws on a failed stream before reading |
| Packets.DecodeAuthorize | BaseLibrary/C2S_Authorize.h:53-57 | deserializing into a `C2S_Authorize` yields one, and throws on a failed stream before reading |
| Packets.DecodeAuthorizeReply | BaseLibrary/S2C_AuthorizeReply.h:65-69 | the same for `S2C_AuthorizeReply` |
| Packets.DecodeGetShiftsByDay | BaseLibrary/C2S_GetShiftsByDay.h:63-69 | the same for `C2S_GetShiftsByDay` |
| Packets.DecodeGetShiftsReply | BaseLibrary/S2C_GetShiftsReply.h:84-91 | the same for `S2C_GetShiftsReply` |
| Packets.DecodeInsertShift | BaseLibrary/C2S_InsertShift.h:84-91 | the same for `C2S_InsertShift` |
| Packets.DecodeInsertShiftReply | BaseLibrary/S2C_InsertShiftReply.h:66-71 | the same for `S2C_InsertShiftReply` |
| Packets.DecodeIdRequest | BaseLibrary/C2S_DeleteWorker.h:53-57 | deserializing into a `C2S_DeleteShift` or `C2S_DeleteWorker` yields that class, and throws on a failed stream before reading |
| Packets.DecodeDeleteShift | BaseLibrary/C2S_DeleteShift.h:55-59 | the same for `C2S_DeleteShift` |
| Packets.DecodeDeleteWorker | BaseLibrary/C2S_DeleteWorker.h:53-57 | the same for `C2S_DeleteWorker` |
| Packets.DecodeIdReply | BaseLibrary/S2C_DeleteWorkerReply.h:56-60 | deserializing into an `S2C_DeleteShiftReply` or `S2C_DeleteWorkerReply` yields that class, and throws on a failed stream before reading |
| Packets.DecodeDeleteShiftReply | BaseLibrary/S2C_DeleteShiftReply.h:54-58 | the same for `S2C_DeleteShiftReply` |
| Packets.DecodeDeleteWorkerReply | BaseLibrary/S2C_DeleteWorkerReply.h:56-60 | the same for `S2C_DeleteWorkerReply` |
| Packets.DecodeGetWorkers | BaseLibrary/C2S_GetWorkers.h:11-28 | the same for `C2S_GetWorkers` |
| Packets.DecodeGetWorkersReply | BaseLibrary/S2C_GetWorkersReply.h:67-78 | the same for `S2C_GetWorkersReply` |
| Packets.DecodeInsertWorker | BaseLibrary/C2S_InsertWorker.h:86-93 | the same for `C2S_InsertWorker` |
| Packets.DecodeInsertWorkerReply | BaseLibrary/S2C_InsertWorkerReply.h:71-78 | the same for `S2C_InsertWorkerReply` |
| Packets.DecodeClientSync | BaseLibrary/S2C_ClientSync.h:84-91 | the same for `S2C_ClientSync` |
| Packets.DecodeDateValue | BaseLibrary/Date.h:108-114 | deserializing into a `Date` instance yields a date, and throws on a failed stream before reading |
| Packets.DecodeDateTimeValue | BaseLibrary/DateTime.h:135-141 | the same for a `DateTime` instance |
| Packets.DecodeShiftValue | BaseLibrary/Shift.h:164-172 | the same for a `Shift` instance |
| Packets.DecodeWorkerValue | BaseLibrary/ShiftWorker.h:120-127 | the same for a `ShiftWorker` instance |
| Packets.DefaultsValid | BaseLibrary/serialization.h:38-43 | every default-constructed payload is one that survives its own encoding |
| Packets.TagOf | BaseLibrary/Serializable.h:54 | `getType` of each payload class; `Packets.DecodeAsRoundTrip` states that a payload reads back under its own tag |
| Packets.Encode | BaseLibrary/Serializable.h:62-65 | `serialize` of any payload, by its class; `Packets.PayloadRoundTrip` states that `new_instance` reads it back |
| Packets.DecodeAs | BaseLibrary/Serializable.h:72-80 | the `deserialize` override of a freshly built instance of a class; `Packets.DecodeAsRoundTrip` states that it inverts `Encode` |
| Packets.DecodePayload | BaseLibrary/serialization.h:209-214 | `new_instance(stream)`: peek the tag, build, deserialize; `Packets.PayloadRoundTrip` and `Packets.PayloadRejectsUnknown` state what it reads and what it refuses |
| Packets.DecodeAsRoundTrip | BaseLibrary/Serializable.h:62-80 | deserializing into an instance of the writer's class gives back the payload written, and the encoding starts with that class's tag |
| Packets.ValueRoundTrip | BaseLibrary/Serializable.h:62-80 | the same for the value classes: pings, dates, times, shifts and workers |
| Packets.ShiftRequestRoundTrip | BaseLibrary/Serializable.h:62-80 | the same for the authorize and shift requests |
| Packets.WorkerRequestRoundTrip | BaseLibrary/Serializable.h:62-80 | the same for the worker requests |
| Packets.ShiftReplyRoundTrip | BaseLibrary/Serializable.h:62-80 | the same for the authorize and shift replies |
| Packets.WorkerReplyRoundTrip | BaseLibrary/Serializable.h:62-80 | the same for the worker replies |
| Packets.WorkerUpdateReplyRoundTrip | BaseLibrary/Serializable.h:62-80 | the same for the insert-worker and delete-worker replies |
| Packets.PayloadRoundTrip | BaseLibrary/serialization.h:209-214 | reading any valid payload off a stream with `new_instance` then its own `deserialize` gives back the payload and leaves the rest of the stream |
| Packets.PayloadRejectsUnknown | BaseLibrary/serialization.h:209-214 | a leading tag naming no constructible class is refused before anything else is read |
| Connections.Dispatch | BaseLibrary/ConnectionBase.h:85-92 | the calls `onPayloadReceived` makes: the handlers under the payload's own tag, in order; `Connections.OtherTagsIgnored` and `Connections.AddedHandlerRunsLast` state what it depends on |
| Connections.OtherTagsIgnored | BaseLibrary/ConnectionBase.h:85-92 | handlers stored under any tag other than the payload's own have no bearing on its dispatch |
| Connections.BaseClassHandlersIgnored | BaseLibrary/ConnectionBase.h:85-92 | the lookup is by the payload's exact type: handlers registered for its base class never fire for it |
| Connections.AddedHandlerRunsLast | BaseLibrary/ConnectionBase.h:30-35 | a handler added under the payload's tag is called once, after every handler registered before it |
| Connections.RemovedHandlersSilent | BaseLibrary/ConnectionBase.h:53-56 | after `removeHandlers` for a tag, a payload of that tag calls nothing |
| Connections.Observer.constructor | BaseLibrary/ConnectionBase.h:19-21 | a new observer has no handlers |
| Connections.Observer.AddHandler | BaseLibrary/ConnectionBase.h:30-35 | the callback is appended to the list under the tag, creating the list when absent; other tags are untouched |
| Connections.Observer.RemoveHandlers | BaseLibrary/ConnectionBase.h:53-56 | the list under the tag becomes empty; other tags are untouched |
| Connections.Observer.OnPayloadReceived | BaseLibrary/ConnectionBase.h:85-92 | the calls made are exactly the handlers under the payload's own tag, in order, each with the payload and size; none when the tag has no entry |
| Connections.Without | BaseLibrary/ConnectionBase.cpp:13-15 | `std::remove` then `erase` of one observer; `Connections.WithoutCounts` states what it keeps and drops |
| Connections.Broadcast | BaseLibrary/ConnectionBase.cpp:30-38 | one notice to each observer, in subscription order; `Connections.Connection.NotifyAll` ends with these events added |
| Connections.WithoutCounts | BaseLibrary/ConnectionBase.cpp:13-15 | `unsubscribe` removes every subscription of the observer and keeps every other observer as often as it was subscribed |
| Connections.SubscribeThenUnsubscribe | BaseLibrary/ConnectionBase.cpp:8-15 | subscribing then unsubscribing an observer leaves the same list as unsubscribing it alone |
| Connections.Disconnect | BaseLibrary/Connection.cpp:46-50 | `closeError` leaves no socket and a dead connection; ids, counter, observers, stream states and sent bytes are unchanged |
| Connections.DisconnectAtMostOnce | BaseLibrary/Connection.cpp:46-50 | a second close is a no-op, and closing without a socket changes nothing, so observers hear of a disconnection at most once |
| Connections.NextRequestId | BaseLibrary/ConnectionBase.cpp:74-78 | the new id is never 0: the successor of the counter, 1 after -1, and the smallest `int` after the largest |
| Connections.IdsCountFromOne | BaseLibrary/ConnectionBase.cpp:40-42 | from a new connection's counter of 0, the k-th id handed out is k, up to the largest `int` |
| Connections.SendSpec | BaseLibrary/Connection.cpp:77-99 | `sendBuffer` succeeds exactly when the socket accepts all the bytes; setup and stream states are unchanged |
| Connections.ReceiveSpec | BaseLibrary/Connection.cpp:52-75 | `receiveFromSocket(n)` on success gives exactly n bytes and keeps the socket; setup and stream states are unchanged |
| Connections.Frame | BaseLibrary/Connection.cpp:106-118 | a frame is the `content_len_t` header followed by the payload bytes unchanged |
| Connections.WriteSyncAsWrittenSpec | BaseLibrary/Connection.cpp:102-124 | `writeSync` as written never changes ids, counter, observers or reading mode |
| Connections.WriteSyncSpec | BaseLibrary/Connection.cpp:102-124 | `writeSync` with the size check first never changes ids, counter, observers or reading mode |
| Connections.RunFailure | BaseLibrary/binary.h:16-22 | a serializer that throws reports `invalid destination stream` and leaves a failed stream |
| Connections.RunStaysInRoom | BaseLibrary/Connection.cpp:106-109 | a serializer never writes past the room of the buffer it writes to |
| Connections.RunOnFailedStream | BaseLibrary/binary.h:16-22 | on a failed stream a serializer writes nothing |
| Connections.PutFrameNeverOversize | BaseLibrary/Connection.cpp:111-115 | after serializing into a buffer of `MAX_PACKET_SIZE` after the header, the oversize check cannot fire |
| Connections.OversizeCheckIsDead | BaseLibrary/Connection.cpp:102-124 | as written, `writeSync` never reports "Exceeded max packet size", whatever the payload |
| Connections.PutFrameOverflow | BaseLibrary/Connection.cpp:106-117 | writes that overflow the buffer fail the send stream, and the header write then throws `invalid destination stream` |
| Connections.PutFrame | BaseLibrary/Connection.cpp:105-121 | the serialize, check, header and send of `writeSync` never change the connection's id, request counter, observers or reading mode |
| Connections.SendBody | BaseLibrary/Connection.cpp:111-121 | the length check, the header and the send, with the same setup kept |
| Connections.SendAndTell | BaseLibrary/Connection.cpp:120-121 | `sendBuffer` then `onPayloadSent` to every observer, with the same setup kept |
| Connections.OversizePoisonsSendStream | BaseLibrary/Connection.cpp:102-124 | as written, an oversized payload leaves the send stream failed and sends nothing |
| Connections.PutFrameOnFailedStream | BaseLibrary/Connection.cpp:105-117 | on a failed send stream nothing is written and the stream error is reported |
| Connections.FailedSendStreamRefusesAll | BaseLibrary/Connection.cpp:102-124 | as written, once the send stream has failed, every later `writeSync` fails and sends nothing |
| Connections.PutFrameSends | BaseLibrary/Connection.cpp:106-121 | writes that fit are sent as exactly their frame, and each observer is told |
| Connections.WriteSyncSendsFrame | BaseLibrary/Connection.cpp:102-124 | on a good stream, a payload that fits is sent as its frame and each observer is told; a refusing socket closes the connection with "Connection broken (send failed)" |
| Connections.WriteSyncKeepsStreamGood | BaseLibrary/Connection.cpp:111-115 | with the size check first, a good send stream stays good, and an oversized payload is refused with "Exceeded max packet size" without changing the state |
| Connections.WritesAgree | BaseLibrary/Connection.cpp:102-124 | the corrected write and the write as written give the same state and result exactly when the connection is dead or the payload's encoding fits `MAX_PACKET_SIZE` |
| Connections.ReadFrameWith | BaseLibrary/Connection.cpp:133-163 | `readSyncInternal` never changes setup or the send stream |
| Connections.ReadBody | BaseLibrary/Connection.cpp:149-160 | the body read never changes setup or the send stream |
| Connections.HeaderThenBody | BaseLibrary/Connection.cpp:135-149 | a header announcing a length within bounds hands over to the body read of that length |
| Connections.BodyThenDecode | BaseLibrary/Connection.cpp:149-153 | the body read takes exactly the announced bytes and decodes them |
| Connections.Deliver | BaseLibrary/Connection.cpp:150-159 | after a decode the socket and setup are unchanged, and a `runtime_error` never escapes |
| Connections.FrameRoundTrip | BaseLibrary/Connection.cpp:102-163 | the frame `writeSync` sends for a valid payload is read back as that payload, and each observer is told |
| Connections.OversizeHeaderCloses | BaseLibrary/Connection.cpp:138-143 | a header announcing more than `MAX_PACKET_SIZE` closes the connection with "Exceeded max packet size" before any body byte is read |
| Connections.TruncatedFrameRead | BaseLibrary/Connection.cpp:133-163 | a frame whose request id is cut short has its header read normally and decodes with a zero-filled id |
| Connections.TruncatedFrameAccepted | BaseLibrary/Connection.cpp:150-154 | as written, the truncated frame yields a packet with a made-up id and leaves the receive stream failed |
| Connections.TruncatedDecode | BaseLibrary/binary.h:45-52 | the truncated body decodes as a `C2S_GetWorkers` with a zero-filled id and a failed reader |
| Connections.FailedReceiveStreamRefusesAll | BaseLibrary/Connection.cpp:135-137 | as written, once the receive stream has failed, every later read throws at the header, outside the handler |
| Connections.StrictReadRecovers | BaseLibrary/Connection.cpp:133-163 | with the stream cleared per frame, the truncated frame is dropped, its bytes consumed, and the next read does not fail on the stream |
| Connections.StrictReadNeverBadStream | BaseLibrary/Connection.cpp:133-163 | with the stream cleared per frame, no read fails with the stream-state error |
| Connections.ReadsAgree | BaseLibrary/Connection.cpp:133-163 | on a good receive stream, the strict read and the read as written give the same state and result whenever the read as written leaves the stream good |
| Connections.ReadSyncSpec | BaseLibrary/Connection.cpp:126-131 | `readSync`: a logic error while a background reader owns the connection, else the strict frame read; `Connections.StrictReadRecovers` and `Connections.FrameRoundTrip` state what it reads |
| Connections.WriteRequestSpec | BaseLibrary/ConnectionBase.cpp:81-86 | `writeRequestSync` stamps the packet with the next request id, keeps its class, and returns that id on success |
| Connections.WriteReplySpec | BaseLibrary/ConnectionBase.cpp:89-93 | `writeReplySync` stamps a nonzero id on the packet and keeps the packet's own id for 0 |
| Connections.RequestsGetSuccessiveIds | BaseLibrary/ConnectionBase.cpp:74-86 | two requests written in a row carry different ids, the second the successor of the first |
| Connections.ConnectSpec | BaseLibrary/Connection.cpp:33-44 | `connect(socket)` keeps observers and counter; a live socket takes the next connection id; a dead one keeps the old id and returns it |
| Connections.Attach | BaseLibrary/Connection.cpp:34-36 | after attaching, the connection holds the new socket with its setup unchanged |
| Connections.OnConnectedSpec | BaseLibrary/ConnectionBase.cpp:17-22 | `onConnected` never changes ids, counter, observers or reading mode |
| Connections.Announce | BaseLibrary/ConnectionBase.cpp:19-21 | telling observers of the connection never changes setup |
| Connections.ConnectIdsIncrease | BaseLibrary/Connection.cpp:33-44 | each successful connect takes the next id, so ids of live connections strictly increase |
| Connections.ConnectDeadSocket | BaseLibrary/Connection.cpp:33-44 | connecting a dead socket holds it, assigns no id and tells nobody |
| Connections.IdCounter.constructor | BaseLibrary/ConnectionBase.cpp:6 | `LastId` starts at 0 |
| Connections.Connection.constructor | BaseLibrary/ConnectionBase.cpp:40-46 | a new connection has no socket, id -1, request counter 0, good streams, no observers and an empty bag |
| Connections.Connection.AssertConnected | BaseLibrary/ConnectionBase.cpp:65-68 | succeeds exactly when alive, and otherwise throws "Connection is closed" |
| Connections.Connection.Subscribe | BaseLibrary/ConnectionBase.cpp:8-11 | a non-null observer is appended, duplicates allowed; null changes nothing |
| Connections.Connection.Unsubscribe | BaseLibrary/ConnectionBase.cpp:13-15 | every subscription of the observer is removed, the others keep their order |
| Connections.Connection.NewRequestId | BaseLibrary/ConnectionBase.cpp:74-78 | returns the next nonzero id and stores it as the counter; nothing else changes |
| Connections.Connection.NotifyAll | BaseLibrary/ConnectionBase.cpp:30-38 | one notice to each observer, in subscription order |
| Connections.Connection.CloseError | BaseLibrary/Connection.cpp:46-50 | the new state is the disconnection of the old one |
| Connections.Connection.Close | BaseLibrary/ConnectionBase.cpp:61-63 | closes with "Connection closed" |
| Connections.Connection.SendBuffer | BaseLibrary/Connection.cpp:77-99 | the send loop ends in the state and result of `SendSpec` |
| Connections.Connection.ReceiveFromSocket | BaseLibrary/Connection.cpp:52-75 | the receive loop ends in the state and result of `ReceiveSpec` |
| Connections.Connection.PutFrameMethod | BaseLibrary/Connection.cpp:105-121 | serializing, checking and sending ends in the state and result of `PutFrame` |
| Connections.Connection.SendBodyMethod | BaseLibrary/Connection.cpp:111-121 | ends in the state and result of `SendBody` |
| Connections.Connection.WriteSyncAsWritten | BaseLibrary/Connection.cpp:102-124 | ends in the state and result of `WriteSyncAsWrittenSpec` |
| Connections.Connection.WriteSync | BaseLibrary/Connection.cpp:102-124 | ends in the state and result of `WriteSyncSpec` |
| Connections.Connection.WriteRequestSync | BaseLibrary/ConnectionBase.cpp:81-86 | ends in the state, stamped packet and result of `WriteRequestSpec` |
| Connections.Connection.WriteReplySync | BaseLibrary/ConnectionBase.cpp:89-93 | ends in the state, packet and result of `WriteReplySpec` |
| Connections.Connection.WriteReplyTo | BaseLibrary/ConnectionBase.cpp:95-97 | answers under the request's own id |
| Connections.Connection.ReadSyncInternalAsWritten | BaseLibrary/Connection.cpp:133-163 | ends in the state and result of `ReadFrameWith` as written |
| Connections.Connection.ReadSyncInternal | BaseLibrary/Connection.cpp:133-163 | ends in the state and result of the strict `ReadFrameWith` |
| Connections.Connection.ReadFrame | BaseLibrary/Connection.cpp:133-163 | header, length check and body read end in the state and result of `ReadFrameWith` |
| Connections.Connection.ReadBodyMethod | BaseLibrary/Connection.cpp:149-160 | ends in the state and result of `ReadBody` |
| Connections.Connection.DeliverMethod | BaseLibrary/Connection.cpp:150-159 | ends in the state and result of `Deliver` |
| Connections.Connection.ReadSync | BaseLibrary/Connection.cpp:126-131 | throws `logic_error` while reading in the background, else reads one frame |
| Connections.Connection.OnConnected | BaseLibrary/ConnectionBase.cpp:17-22 | ends in the state and result of `OnConnectedSpec` |
| Connections.Connection.AnnounceConnected | BaseLibrary/ConnectionBase.cpp:19-21 | the notification loop ends in the state of `Announce` |
| Connections.Connection.AttachSocket | BaseLibrary/Connection.cpp:34-36 | ends in the state of `Attach` |
| Connections.Connection.Connect | BaseLibrary/Connection.cpp:33-44 | ends in the state, counter and result of `ConnectSpec` |
| Buffers.CalcOffset | BaseLibrary/buffers.cpp:9-23 | the sought position is returned exactly when it lies in [base, end]; otherwise `length_error("Invalid position")` |
| Buffers.SeekDirectionsAgree | BaseLibrary/buffers.cpp:9-23 | a relative seek and a seek from the end land where the matching seek from the start does |
| Buffers.SeekBack | BaseLibrary/buffers.cpp:9-23 | a relative seek that succeeds is undone by the opposite relative seek |
| Buffers.SeekSpec | BaseLibrary/buffers.cpp:29-49 | `seekoff`: the get area is moved first, then the put area; `Buffers.SeekStaysInArea` and `Buffers.SeekFailsOutOfArea` state when it succeeds and where the cursors end |
| Buffers.SeekStaysInArea | BaseLibrary/buffers.cpp:29-49 | `seekoff` keeps both cursors inside their areas and reports a position inside them |
| Buffers.SeekFailsOutOfArea | BaseLibrary/buffers.cpp:29-49 | `seekoff` fails exactly when a named area cannot hold the target, and then with `length_error` |
| Buffers.AbsoluteSeekJoinsCursors | BaseLibrary/buffers.cpp:29-49 | seeking both areas of one length from the start or from the end leaves the two cursors together |
| Buffers.RelativeSeekMovesHalf | BaseLibrary/buffers.cpp:34-47 | a relative seek whose get target fits but whose put target does not moves the get cursor and then throws |
| Buffers.SeekNeither | BaseLibrary/buffers.cpp:29-49 | a seek naming neither area changes nothing and reports position 0 |
| Buffers.MemoryBuf.constructor | BaseLibrary/buffers.h:40-43 | the default buffer has no data, length and capacity 0 |
| Buffers.MemoryBuf.FromBuffer | BaseLibrary/buffers.h:49-53 | the buffer takes ownership of the given bytes: length and capacity are their count, cursors at the start |
| Buffers.MemoryBuf.UpdateBuffer | BaseLibrary/buffers.cpp:3-7 | both areas become the whole length with their cursors at the start; data, length and capacity are unchanged |
| Buffers.MemoryBuf.InPosition | BaseLibrary/buffers.h:99-101 | the get cursor's offset lies within the length |
| Buffers.MemoryBuf.OutPosition | BaseLibrary/buffers.h:105-107 | the put cursor's offset lies within the length |
| Buffers.MemoryBuf.SetLength | BaseLibrary/buffers.cpp:51-65 | succeeds exactly when the data exists and the capacity suffices, or `expand` is set; a failure changes nothing; growing releases the old array for a fresh one of exactly the length; success rewinds both cursors |
| Buffers.MemoryBuf.SetData | BaseLibrary/buffers.cpp:67-74 | the buffer takes the new array, length and capacity become its size, and the old array is released unless it is the new one |
| Buffers.MemoryBuf.Allocate | BaseLibrary/buffers.h:93-95 | a fresh array of exactly the length is installed and the old one released |
| Buffers.MemoryBuf.Dispose | BaseLibrary/buffers.h:61-63 | the data is released; length and capacity drop to 0 |
| Buffers.MemoryBuf.SeekOff | BaseLibrary/buffers.cpp:29-49 | the cursors and the result are those of `SeekSpec`; data, length, capacity and area ends are unchanged |
| Buffers.MemoryBuf.SeekPos | BaseLibrary/buffers.cpp:25-27 | `seekpos(sp)` is `seekoff(sp, beg)` |
| Store.MaxKey | BaseLibrary/RestaurantManager.h:90-91 | the last key of a non-empty `std::map` is in the map and no key exceeds it |
| Store.NewIdentityId | BaseLibrary/RestaurantManager.h:88-93 | 1 for an empty map; otherwise, unless the largest 64-bit key is taken, a non-zero id larger than every key and so not in the map; with that key taken, the addition wraps to 0 |
| Store.Held | BaseLibrary/RestaurantManager.cpp:24 | a connection that never stored permissions holds `None` |
| Store.PermissionFlags | BaseLibrary/RestaurantManager.cpp:23-26 | for a single flag, `verifyPermission` passes exactly when that flag is held; requiring nothing always passes |
| Store.VerifyPermission | BaseLibrary/RestaurantManager.cpp:23-26 | `verifyPermission`: every required flag is held; `Store.PermissionFlags` and `Store.RolePermissions` state what each role passes |
| Store.UnauthorizedPassesNothing | BaseLibrary/RestaurantManager.cpp:23-26 | a connection that never authorized passes exactly the checks that require nothing |
| Store.RolePermissions | BaseLibrary/RestaurantManager.cpp:23-26 | a super user passes the view, insert and delete checks; a normal user passes only the view check |
| Store.CollisionIsOverlap | BaseLibrary/RestaurantManager.cpp:157 | for a period that is not empty, the collision test is exactly the overlap of the two half-open periods |
| Store.MeetsSymmetric | BaseLibrary/RestaurantManager.cpp:157 | two shifts meet exactly when they meet the other way round |
| Store.Collides | BaseLibrary/RestaurantManager.cpp:157 | the collision test as written; `Store.CollisionIsOverlap` states that it is overlap of half-open periods |
| Store.Overlap | BaseLibrary/RestaurantManager.cpp:157 | the half-open periods share an instant; the reference `Store.CollisionIsOverlap` compares the written test against |
| Store.Meets | BaseLibrary/RestaurantManager.cpp:149-159 | two shifts whose working periods overlap; `Store.MeetsSymmetric` states that the relation is symmetric |
| Store.ValidShiftIsNotEmpty | BaseLibrary/Shift.h:71-75 | a valid shift has an end time strictly after its start |
| Store.At | BaseLibrary/RestaurantManager.cpp:152 | `_shifts[id]` yields the stored shift, or a default shift when the id is missing |
| Store.Scan | BaseLibrary/RestaurantManager.cpp:149-159 | the collision loop never removes or changes a stored shift; it can only add defaults for missing ids |
| Store.DayOrder | BaseLibrary/RestaurantManager.cpp:149 | the loop visits exactly the ids listed for the day |
| Store.VerifyShift | BaseLibrary/RestaurantManager.cpp:138-162 | `verifyShift` emits nothing and leaves every table but `_shifts` alone; a shift whose end time cannot be computed throws and changes nothing |
| Store.DayIds | BaseLibrary/RestaurantManager.cpp:145-147 | the ids listed for a day, none when the day has no entry |
| Store.Rivals | BaseLibrary/RestaurantManager.cpp:149-158 | every rival is a stored shift other than the one with the shift's own id |
| Store.ScanMeaning | BaseLibrary/RestaurantManager.cpp:149-159 | on consistent tables the loop changes nothing and answers whether no listed id is a rival |
| Store.VerifyShiftMeaning | BaseLibrary/RestaurantManager.cpp:138-162 | on consistent tables `verifyShift` changes nothing and succeeds exactly when the shift has no rival |
| Store.DeleteShift | BaseLibrary/RestaurantManager.cpp:202-218 | succeeds exactly when the id is stored; an unknown id changes nothing; a known one leaves the table and is announced as removed; workers and tokens are untouched |
| Store.Stored | BaseLibrary/RestaurantManager.cpp:189-196 | the shift is stored under its id, listed under its start date, and announced as changed |
| Store.Probe | BaseLibrary/RestaurantManager.cpp:170-174 | the checked shift differs from the given one at most in its id, and is the given one when editing |
| Store.InsertShift | BaseLibrary/RestaurantManager.cpp:165-200 | the returned shift is the given one up to its id, and exactly the given one when editing |
| Store.Released | BaseLibrary/RestaurantManager.cpp:228-232 | a shift assigned to the removed worker gets worker id 0; nothing else changes |
| Store.Unassigned | BaseLibrary/RestaurantManager.cpp:228-232 | every shift keeps its id and is released from the removed worker |
| Store.DeleteWorker | BaseLibrary/RestaurantManager.cpp:220-241 | succeeds exactly when the worker is stored; an unknown id changes nothing; a known one leaves the table, its shifts are unassigned, and it is announced as removed |
| Store.InsertWorker | BaseLibrary/RestaurantManager.cpp:302-326 | fails exactly when editing a worker that is not stored, and then with "Worker to be edited was not found" and nothing changed; otherwise the worker is stored under its id and announced |
| Store.Filled | BaseLibrary/RestaurantManager.cpp:57-62 | after the lookups every listed id is in `_shifts`, a default shift for a missing one |
| Store.Looked | BaseLibrary/RestaurantManager.cpp:57-62 | the reply's set holds exactly what `_shifts[id]` yields for the listed ids |
| Store.ShiftsOfDay | BaseLibrary/RestaurantManager.cpp:53-63 | the loop emits nothing and changes only `_shifts` |
| Store.ShiftsOfDayMeaning | BaseLibrary/RestaurantManager.cpp:53-63 | on consistent tables a day's shifts are exactly the stored shifts starting that day, and nothing is added |
| Store.DeleteShiftKeeps | BaseLibrary/RestaurantManager.cpp:202-218 | removing a shift keeps the tables consistent and free of overlaps |
| Store.StoredKeeps | BaseLibrary/RestaurantManager.cpp:189-190 | storing a valid shift under a fresh non-zero id keeps the tables consistent |
| Store.StoredKeepsDisjoint | BaseLibrary/RestaurantManager.cpp:189-190 | storing a shift that meets no stored shift of its job keeps the tables free of overlaps |
| Store.InsertShiftOutcome | BaseLibrary/RestaurantManager.cpp:165-200 | for a valid shift, while ids do not wrap: insertion succeeds exactly when the checked shift has no rival and an edited shift exists; a failure changes nothing; a success stores the shift under its id, a fresh non-zero one for a new shift |
| Store.InsertShiftKeeps | BaseLibrary/RestaurantManager.cpp:165-200 | inserting or editing a valid shift keeps the tables consistent |
| Store.NoRivalIsClear | BaseLibrary/RestaurantManager.cpp:149-158 | a shift with no rival is clear of every other stored shift under any id |
| Store.InsertShiftKeepsDisjoint | BaseLibrary/RestaurantManager.cpp:165-200 | after an insertion or an edit no two stored shifts of the same job overlap |
| Store.DeleteWorkerKeeps | BaseLibrary/RestaurantManager.cpp:220-241 | removing a worker keeps the tables consistent, and no shift is left assigned to it |
| Store.DeleteWorkerKeepsDisjoint | BaseLibrary/RestaurantManager.cpp:228-232 | unassigning shifts moves none of them, so the tables stay free of overlaps |
| Store.InsertWorkerKeeps | BaseLibrary/RestaurantManager.cpp:302-326 | inserting or editing a worker keeps the tables consistent; a new worker gets a fresh non-zero id |
| Store.WorkerStoredKeeps | BaseLibrary/RestaurantManager.cpp:318 | storing a worker under its own non-zero id keeps the tables consistent |
| Store.KeyOrder | BaseLibrary/RestaurantManager.cpp:246 | the iteration visits every key exactly once |
| Store.PairsRoundTrip | BaseLibrary/RestaurantManager.cpp:245-292 | the pairs written for a list of keys, read back into a map, add exactly those keys with their values |
| Store.MapRoundTrip | BaseLibrary/RestaurantManager.cpp:245-292 | a map whose size fits a `size_t` and whose keys and values each read back is read back whole |
| Store.MapOps | BaseLibrary/RestaurantManager.cpp:245-266 | a `std::map` written as its size, then each pair in key order; read back by `Store.MapRoundTrip` |
| Store.ParsePairs | BaseLibrary/RestaurantManager.cpp:275-279 | the pair-reading loop only adds: every key it starts with is in the map it returns |
| Store.ParseMap | BaseLibrary/RestaurantManager.cpp:274-279 | a map read on a failed stream throws "invalid destination stream" before reading the size |
| Store.TokenLessTotal | BaseLibrary/RestaurantManager.cpp:261 | the byte order of `std::string` keys is a strict total order |
| Store.ShiftTableRoundTrip | BaseLibrary/RestaurantManager.cpp:245-279 | the shift table of valid shifts survives its write and read loops |
| Store.DayTableRoundTrip | BaseLibrary/RestaurantManager.cpp:250-286 | the day index of valid dates survives its write and read loops |
| Store.StaffTableRoundTrip | BaseLibrary/RestaurantManager.cpp:255-292 | the worker table survives its write and read loops |
| Store.TokenTableRoundTrip | BaseLibrary/RestaurantManager.cpp:260-297 | the token table survives its write and read loops |
| Store.TablesStages | BaseLibrary/RestaurantManager.cpp:243-299 | each stage of `deserialize` reads back what the matching stage of `serialize` wrote |
| Store.TablesRoundTrip | BaseLibrary/RestaurantManager.cpp:243-299 | every encodable set of tables survives `serialize` then `deserialize`, whatever follows it |
| Store.TablesOps | BaseLibrary/RestaurantManager.cpp:243-266 | `RestaurantManager::serialize`: the four tables in turn; read back by `Store.TablesRoundTrip` |
| Store.DecodeTables | BaseLibrary/RestaurantManager.cpp:268-299 | `RestaurantManager::deserialize` on a failed stream throws "invalid destination stream" before reading |
| Store.DecodeTablesSteps | BaseLibrary/RestaurantManager.cpp:268-299 | `deserialize` reads its tag and then each map from where the previous one ended |
| Store.PairsRead | BaseLibrary/RestaurantManager.cpp:275-279 | a read loop that completes leaves exactly the map parsed |
| Store.MapRead | BaseLibrary/RestaurantManager.cpp:270-279 | a cleared map refilled by a completed loop is exactly the map parsed |
| Store.Loaded | BaseLibrary/RestaurantManager.cpp:268-299 | `deserialize` succeeds exactly when the snapshot parses, and then leaves the parsed tables; a failure reports the parse error; a wrong tag leaves the tables alone |
| Store.LoadedBody | BaseLibrary/RestaurantManager.cpp:270-297 | clearing and refilling the four maps succeeds exactly when they parse, and then leaves them |
| Store.LoadSnapshot | BaseLibrary/RestaurantManager.cpp:243-299 | loading a snapshot of encodable tables restores them exactly, whatever the tables were before |
| Store.LoadedSteps | BaseLibrary/RestaurantManager.cpp:268-299 | when every stage succeeds, the load ends with the four maps read |
| Store.ConsistentIsEncodable | BaseLibrary/RestaurantManager.cpp:243-266 | consistent tables can be saved and reloaded as soon as their counts fit a `size_t` |
| Manager.Bytes | BaseLibrary/RestaurantManager.cpp:37 | a message becomes a `std::string` of one byte per character, each the character's low 8 bits |
| Manager.HandlerTableInOrder | BaseLibrary/RestaurantManager.h:50-61 | the constructor's eight `addHandler` calls build one handler under each request's tag, in registration order |
| Manager.EightHandlers | BaseLibrary/RestaurantManager.h:53-60 | eight handlers, one under each request tag, no two alike |
| Manager.HandlerOf | BaseLibrary/RestaurantManager.h:53-60 | the handler table holds exactly this handler under the request's tag |
| Manager.HandlerFor | BaseLibrary/RestaurantManager.h:53-60 | the handler bound for each request class; `Manager.HandlerOf` states that the table holds exactly it |
| Manager.HandlerTable | BaseLibrary/RestaurantManager.h:50-61 | the table the constructor's `addHandler` calls build; `Manager.HandlerTableInOrder` and `Manager.EightHandlers` state its shape |
| Manager.Served | BaseLibrary/RestaurantManager.h:53-60 | the request classes the manager has a handler for; `Manager.HandlerTableDispatch` states that each reaches its handler |
| Manager.Gated | BaseLibrary/RestaurantManager.cpp:49-129 | the requests whose handler calls `verifyPermission` first; `Manager.Respond` states what they answer without the permission |
| Manager.Required | BaseLibrary/RestaurantManager.cpp:49-129 | the flag each gated handler asks for; `Manager.Granted` and `Manager.Respond` state the two outcomes of the check |
| Manager.Replies | BaseLibrary/Serializable.h:15-42 | the reply class of each gated request, carrying its request id; `Manager.RepliesTag` states that it is the class after the request's |
| Manager.HandlerTableDispatch | BaseLibrary/RestaurantManager.h:36-40 | a served request reaches exactly its own handler once; any other payload reaches none |
| Manager.RepliesTag | BaseLibrary/Serializable.h:15-42 | each gated request's reply class follows the request's in the type enumeration and carries the request's id |
| Manager.Refused | BaseLibrary/RestaurantManager.cpp:49-51 | a refused request gets its own reply class, with its request id, failed with "Unauthorized" |
| Manager.GrantedShifts | BaseLibrary/RestaurantManager.cpp:48-65 | a permitted day query answers a shifts reply under the request's id |
| Manager.GrantedInsertShift | BaseLibrary/RestaurantManager.cpp:70-83 | a permitted shift insertion answers an insert-shift reply under the request's id |
| Manager.GrantedDeleteShift | BaseLibrary/RestaurantManager.cpp:88-95 | a permitted shift deletion answers a delete-shift reply under the request's id |
| Manager.GrantedInsertWorker | BaseLibrary/RestaurantManager.cpp:111-124 | a permitted worker insertion answers an insert-worker reply under the request's id |
| Manager.GrantedDeleteWorker | BaseLibrary/RestaurantManager.cpp:128-135 | a permitted worker deletion answers a delete-worker reply under the request's id |
| Manager.Granted | BaseLibrary/RestaurantManager.cpp:46-136 | a permitted gated request answers with its own reply class and request id |
| Manager.Respond | BaseLibrary/RestaurantManager.cpp:46-136 | without the required permission the request is refused with "Unauthorized" and nothing changes; either way the reply is the request's own reply class with its id |
| Manager.AuthorizeAnswer | BaseLibrary/RestaurantManager.cpp:33-44 | the reply succeeds exactly when the token is known; a known token grants its permissions with no message; an unknown one grants none and fails with "Invalid access token" |
| Manager.Answer | BaseLibrary/RestaurantManager.cpp:29-136 | only an authorization writes the connection's bag; a ping changes nothing and answers `PingReply` |
| Manager.AuthorizeGrants | BaseLibrary/RestaurantManager.cpp:33-44 | after an authorization the connection holds exactly the token's permissions, or none for an unknown token, and the tables are untouched |
| Manager.QueriesAnswer | BaseLibrary/RestaurantManager.cpp:46-108 | a permitted query on consistent tables changes nothing and succeeds; a day's query yields exactly the stored shifts starting that day, the workers' query the whole table |
| Manager.DeletesAnswer | BaseLibrary/RestaurantManager.cpp:87-136 | a permitted delete succeeds exactly when the id is stored, and removes it |
| Manager.AnswerKeeps | BaseLibrary/RestaurantManager.cpp:29-136 | every answer keeps consistent, overlap-free tables so, while ids do not wrap and inserted shifts are valid |
| Manager.ReadMap | BaseLibrary/RestaurantManager.cpp:274-279 | the read loop ends with the entries and outcome `MapRead` describes |
| Manager.LookUp | BaseLibrary/RestaurantManager.cpp:57-62 | the lookup loop ends with the table `Filled` and the shift set `Looked` describe |
| Manager.SyncedTo | BaseLibrary/Server.cpp:117-123 | `writeToAll` as the requesting connection sees it: that connection is in the server's client list (Server.cpp:9-19), so each packet goes out on it with the corrected `writeSync` of the first "## Findings" row and every exception is swallowed; what it sends is stated by `Manager.SyncedToSends`, and where it differs from the write as written is under "## Left out" |
| Manager.SendsOne | BaseLibrary/Connection.cpp:102-124 | one packet that fits, on a live connection whose socket has room, sends exactly its frame and keeps the connection live, its stream good and its setup unchanged |
| Manager.SyncedToSends | BaseLibrary/Server.cpp:117-123 | on a live connection with room for every frame, the requester's copies of the broadcasts go out as their frames, back to back and in order, and leave the connection live with its setup unchanged |
| Manager.SyncFramesFirst | BaseLibrary/RestaurantManager.cpp:192-195 | a requester on a live connection with room gets the frames of the sync packets before the frame of its reply, and the reply write succeeds: the order `Client.ReplyAfterSync` handles them in |
| Manager.WriteToRequester | BaseLibrary/Server.cpp:117-123 | the loop over the packets ends with the connection in the state `SyncedTo` gives, each packet written with the corrected `writeSync` |
| Manager.RestaurantManager.constructor | BaseLibrary/RestaurantManager.h:50-61 | empty tables, nothing broadcast, and the eight handlers registered in order |
| Manager.RestaurantManager.VerifyShift | BaseLibrary/RestaurantManager.cpp:138-162 | ends with the tables and result of `Store.VerifyShift`, broadcasting nothing |
| Manager.RestaurantManager.DeleteShift | BaseLibrary/RestaurantManager.cpp:202-218 | ends with the tables and result of `Store.DeleteShift`, broadcasting its syncs when a server is bound |
| Manager.RestaurantManager.InsertShift | BaseLibrary/RestaurantManager.cpp:165-200 | ends with the tables and result of `Store.InsertShift`, broadcasting its syncs when a server is bound |
| Manager.RestaurantManager.DeleteWorker | BaseLibrary/RestaurantManager.cpp:220-241 | ends with the tables and result of `Store.DeleteWorker`, broadcasting its syncs when a server is bound |
| Manager.RestaurantManager.InsertWorker | BaseLibrary/RestaurantManager.cpp:302-326 | ends with the tables and result of `Store.InsertWorker`, broadcasting its syncs when a server is bound |
| Manager.RestaurantManager.ShiftsOfDay | BaseLibrary/RestaurantManager.cpp:53-63 | ends with the tables and shift set of `Store.ShiftsOfDay`, broadcasting nothing |
| Manager.RestaurantManager.Deserialize | BaseLibrary/RestaurantManager.cpp:268-299 | ends with the tables and outcome of `Store.Loaded` |
| Manager.RestaurantManager.Reload | BaseLibrary/RestaurantManager.cpp:270-297 | ends with the tables and outcome of `Store.LoadedBody` |
| Manager.RestaurantManager.Answered | BaseLibrary/RestaurantManager.cpp:29-136 | the new tables, broadcasts and permission bag after a handler, as `Manager.Answer` gives them, and the requester's connection after its own copy of each broadcast (`Manager.SyncedTo`) and then the reply's `writeSync`; `Manager.AnswerKeeps` states that the tables stay consistent |
| Manager.RestaurantManager.HandlePing | BaseLibrary/RestaurantManager.cpp:29-31 | the connection is sent `PingReply`; tables and bag unchanged |
| Manager.RestaurantManager.HandleAuthorize | BaseLibrary/RestaurantManager.cpp:33-44 | the granted permissions are stored in the bag and the reply of `Answer` is sent |
| Manager.RestaurantManager.HandleGetShiftsByDay | BaseLibrary/RestaurantManager.cpp:46-67 | the tables and the reply sent are those of `Answer` |
| Manager.RestaurantManager.HandleInsertShift | BaseLibrary/RestaurantManager.cpp:69-85 | the tables, broadcasts and reply sent are those of `Answer` |
| Manager.RestaurantManager.HandleDeleteShift | BaseLibrary/RestaurantManager.cpp:87-97 | the tables, broadcasts and reply sent are those of `Answer` |
| Manager.RestaurantManager.HandleGetWorkers | BaseLibrary/RestaurantManager.cpp:99-108 | the reply sent is that of `Answer`; tables unchanged |
| Manager.RestaurantManager.HandleInsertWorker | BaseLibrary/RestaurantManager.cpp:110-125 | the tables, broadcasts and reply sent are those of `Answer` |
| Manager.RestaurantManager.HandleDeleteWorker | BaseLibrary/RestaurantManager.cpp:127-136 | the tables, broadcasts and reply sent are those of `Answer` |
| Manager.RestaurantManager.Invoke | BaseLibrary/ConnectionBase.h:85-92 | the handler a call names answers its payload as `Answer` says |
| Manager.RestaurantManager.OnPayloadReceived | BaseLibrary/RestaurantManager.h:36-40 | the calls are the observer's dispatch by exact tag; a served request is answered as `Answer` says; any other payload changes nothing |
| Client.Dropped | UIPizzaClient/RestaurantClient.cpp:79-86 | deleting a cached shift removes exactly its id and leaves the workers alone; an unknown id changes nothing |
| Client.Cached | UIPizzaClient/RestaurantClient.cpp:70-77 | inserting a shift stores it under its id, replacing any older one, lists it under its day, and leaves the workers alone |
| Client.Discharged | UIPizzaClient/RestaurantClient.cpp:156-165 | a deleted worker is erased, every shift keeps its id and day, and exactly the shifts assigned to that worker become unassigned |
| Client.Forgotten | UIPizzaClient/RestaurantClient.cpp:88-98 | deleting a cached worker discharges it; an unknown worker id changes nothing, its shifts included |
| Client.ShiftAt | UIPizzaClient/RestaurantClient.cpp:100-106 | getShift succeeds exactly when the id is cached, with the cached shift, and otherwise fails with invalid_argument "Not Found" |
| Client.WorkerAt | UIPizzaClient/RestaurantClient.cpp:62-68 | getWorker succeeds exactly when the id is cached, with the cached worker, and otherwise fails with invalid_argument "Not Found" |
| Client.DayShifts | UIPizzaClient/RestaurantClient.cpp:108-119 | getShifts succeeds exactly when every id listed for the day is cached, and then yields exactly their shifts; otherwise it fails with "Not Found" |
| Client.DroppedKeeps | UIPizzaClient/RestaurantClient.cpp:79-86 | deleting a shift keeps the day index sound and takes the id out of every day's list |
| Client.DroppedTwice | UIPizzaClient/RestaurantClient.cpp:79-86 | deleting a shift twice is deleting it once |
| Client.CachedLists | UIPizzaClient/RestaurantClient.cpp:70-77 | after an insertion the shift's id is listed under its own day and under no other |
| Client.CachedKeeps | UIPizzaClient/RestaurantClient.cpp:70-77 | inserting a shift keeps the day index sound |
| Client.CachedTwice | UIPizzaClient/RestaurantClient.cpp:70-77 | inserting the same shift twice is inserting it once |
| Client.DischargedKeeps | UIPizzaClient/RestaurantClient.cpp:156-165 | releasing a worker's shifts keeps the day index sound |
| Client.ApplyKeeps | UIPizzaClient/RestaurantClient.cpp:167-180 | a range-for of cache operations that each keep the index sound keeps it sound |
| Client.Apply | UIPizzaClient/RestaurantClient.cpp:167-180 | a range-for applying one cache operation per element, first to last; `Client.ApplyKeeps` states that it keeps the index sound |
| Client.Synced | UIPizzaClient/RestaurantClient.cpp:167-180 | `onSync`: removed shifts, removed workers, changed workers, changed shifts, each in ascending order; `Client.SyncedKeeps` states that it keeps the index sound |
| Client.Replayed | UIPizzaClient/RestaurantClient.cpp:167-180 | the sync packets handled in order; the `Client.Replayed*` lemmas state what each kind of packet does |
| Client.SyncedKeeps | UIPizzaClient/RestaurantClient.cpp:167-180 | handling any synchronisation packet keeps the day index sound |
| Client.DayShiftsMeaning | UIPizzaClient/RestaurantClient.cpp:108-119 | on a sound index getShifts never throws and yields exactly the cached shifts that start on the day |
| Client.ReplayedRemovedShift | UIPizzaClient/RestaurantClient.cpp:167-170 | a packet announcing a removed shift deletes it from the cache |
| Client.ReplayedChangedShift | UIPizzaClient/RestaurantClient.cpp:177-179 | a packet announcing a changed shift inserts it |
| Client.ReplayedRemovedWorker | UIPizzaClient/RestaurantClient.cpp:171-173 | a packet announcing a removed worker deletes the worker |
| Client.ReplayedChangedWorker | UIPizzaClient/RestaurantClient.cpp:174-176 | a packet announcing a changed worker stores it under its id |
| Client.ReplayedEdit | UIPizzaClient/RestaurantClient.cpp:167-180 | the two packets of an edit delete the old shift, then insert the new one |
| Client.FollowsQuiet | UIPizzaClient/RestaurantClient.cpp:167-180 | a server step that broadcasts nothing and keeps its tables keeps a mirroring cache mirroring |
| Client.FollowsDropped | UIPizzaClient/RestaurantClient.cpp:79-86 | deleting a shift on the server and in the cache keeps them mirrored |
| Client.FollowsStored | UIPizzaClient/RestaurantClient.cpp:70-77 | storing a fresh shift on the server and in the cache keeps them mirrored |
| Client.FollowsEdit | UIPizzaClient/RestaurantClient.cpp:167-180 | the cache follows an accepted edit of a stored shift |
| Client.FollowsFresh | UIPizzaClient/RestaurantClient.cpp:167-180 | the cache follows an accepted insertion under a fresh id |
| Client.InsertShiftBranches | UIPizzaClient/RestaurantClient.cpp:167-180 | the server's shift insertion, branch by branch: the tables it leaves and the packets it broadcasts |
| Client.FollowsInsertShift | UIPizzaClient/RestaurantClient.cpp:167-180 | a client that replays the packets of any shift insertion or edit keeps mirroring the server |
| Client.FollowsDeleteShift | UIPizzaClient/RestaurantClient.cpp:167-180 | a client that replays the packets of any shift deletion keeps mirroring the server |
| Client.FollowsDeleteWorker | UIPizzaClient/RestaurantClient.cpp:167-180 | a client that replays the packets of any worker deletion keeps mirroring the server, its released shifts included |
| Client.FollowsInsertWorker | UIPizzaClient/RestaurantClient.cpp:167-180 | a client that replays the packets of any worker insertion or edit keeps mirroring the server |
| Client.FollowsGranted | UIPizzaClient/RestaurantClient.cpp:167-180 | whatever a permitted request does on the server, the client that replays its packets keeps mirroring |
| Client.FollowsAnswer | UIPizzaClient/RestaurantClient.cpp:167-180 | whatever request the server answers, a mirroring client that replays the broadcast packets in order mirrors the new tables |
| Client.DialError | BaseLibrary/Connection.cpp:8-31 | connect(host, port) throws exactly when the dial gives no socket |
| Client.Authorized | UIPizzaClient/RestaurantClient.cpp:182-186 | onConnected authorizes with the current token on the live connection under the next request id and keeps the observers and connection id |
| Client.Reconnect | UIPizzaClient/RestaurantClient.cpp:22-24 | connect dials the endpoint and hands the socket over; the observers are kept |
| Client.Ensured | UIPizzaClient/RestaurantClient.h:145-148 | ensureConnected leaves a live connection alone and reconnects any other; the observers are kept |
| Client.Requested | UIPizzaClient/RestaurantClient.cpp:57-60 | writeRequest ensures a connection and then writes the request; the observers are kept |
| Client.RequestOnLiveConnection | UIPizzaClient/RestaurantClient.cpp:57-60 | on a live connection a request is written at once under the next request id and nothing is dialed |
| Client.RequestDialFailure | UIPizzaClient/RestaurantClient.cpp:57-60 | a failed dial writes nothing, uses no connection id and fails with the dial's exception |
| Client.ReconnectAuthorizesFirst | UIPizzaClient/RestaurantClient.cpp:57-60 | a request that reconnects goes out after the authorization the reconnection sends, under the id after the authorization's |
| Client.HandlerTableInOrder | UIPizzaClient/RestaurantClient.h:103-110 | the handler table is the one eight addHandler calls build, in their order |
| Client.HandlerOf | UIPizzaClient/RestaurantClient.h:103-110 | every handled reply class has exactly its one handler in the table |
| Client.HandlerFor | UIPizzaClient/RestaurantClient.h:103-110 | the handler bound for each reply class; `Client.HandlerOf` states that the table holds exactly it |
| Client.HandlerTable | UIPizzaClient/RestaurantClient.h:103-110 | the table the constructor's `addHandler` calls build; `Client.HandlerTableInOrder` states its shape |
| Client.Handles | UIPizzaClient/RestaurantClient.h:103-110 | the seven replies and the sync packet; `Client.HandlerTableDispatch` states that each reaches its handler |
| Client.HandlerTableDispatch | UIPizzaClient/RestaurantClient.h:103-110 | a handled payload reaches exactly its own handler and any other payload reaches none |
| Client.Handled | UIPizzaClient/RestaurantClient.cpp:121-180 | an authorization reply sets the permissions whatever its outcome; a failed deletion or insertion reply changes nothing; no other reply touches the permissions |
| Client.HandledKeeps | UIPizzaClient/RestaurantClient.cpp:121-180 | handling anything the server sends keeps the cache's day index sound |
| Client.MirrorsIndexed | UIPizzaClient/RestaurantClient.cpp:70-86 | a cache that mirrors tables with a sound day index has a sound index itself |
| Client.CachedPresent | UIPizzaClient/RestaurantClient.cpp:70-77 | inserting a shift the cache already holds changes nothing |
| Client.ApplyPresent | UIPizzaClient/RestaurantClient.cpp:131-136 | inserting in turn shifts that are all held already changes nothing |
| Client.UnassignedTwice | UIPizzaClient/RestaurantClient.cpp:156-165 | releasing a worker's shifts twice is releasing them once |
| Client.SortedPresent | UIPizzaClient/RestaurantClient.cpp:131-136 | inserting a set of shifts that are all held already, in ascending order, changes nothing |
| Client.RepliedShifts | UIPizzaClient/RestaurantClient.cpp:131-136 | the shifts a permitted day query sends are stored ones, so caching them again changes nothing |
| Client.RepliedInsertShift | UIPizzaClient/RestaurantClient.cpp:144-148 | the reply to an accepted shift insertion finds the cache that followed it already holding the shift |
| Client.RepliedDeleteShift | UIPizzaClient/RestaurantClient.cpp:125-129 | the reply to a shift deletion finds the shift gone already |
| Client.RepliedInsertWorker | UIPizzaClient/RestaurantClient.cpp:150-154 | the reply to a worker insertion finds the worker stored already |
| Client.RepliedDeleteWorker | UIPizzaClient/RestaurantClient.cpp:156-165 | the reply to a worker deletion finds the worker gone and its shifts released already |
| Client.RepliedGranted | UIPizzaClient/RestaurantClient.cpp:121-165 | whatever a permitted request did, its reply is handled and finds the cache that followed it up to date |
| Client.RepliedRefused | UIPizzaClient/RestaurantClient.cpp:121-165 | a refused request's reply is handled and changes nothing in the cache |
| Client.ReplyAfterSync | UIPizzaClient/RestaurantClient.cpp:121-180 | after replaying the packets of any answered request, the client mirrors the new tables, its reply changes nothing more, and it leaves the client holding the permissions the server now holds for the connection |
| Client.Unassign | UIPizzaClient/RestaurantClient.cpp:159-163 | the loop over the cached shifts unassigns exactly the shifts of the worker and keeps all others |
| Client.Merge | UIPizzaClient/RestaurantClient.cpp:138-142 | the loop over the reply's workers overwrites or adds each of them and keeps every other cached worker |
| Client.RegisterHandlers | UIPizzaClient/RestaurantClient.h:103-110 | the eight addHandler calls leave exactly the client's handler table |
| Client.RestaurantClient.constructor | UIPizzaClient/RestaurantClient.h:99-111 | an empty cache, the given endpoint and token, a fresh connection with the client as its only observer, and the client's handler table |
| Client.RestaurantClient.SetEndpoint | UIPizzaClient/RestaurantClient.h:116-119 | the host and port are replaced; the token, cache and permissions are kept |
| Client.RestaurantClient.SetToken | UIPizzaClient/RestaurantClient.h:160-162 | the token is replaced; the endpoint, cache and permissions are kept |
| Client.RestaurantClient.Close | UIPizzaClient/RestaurantClient.h:172-174 | the connection is disconnected as close does, and the client stays its only observer |
| Client.RestaurantClient.OnConnected | UIPizzaClient/RestaurantClient.cpp:182-186 | the reaction to being connected sends the authorization |
| Client.RestaurantClient.Connect | UIPizzaClient/RestaurantClient.cpp:22-24 | connecting dials, attaches the socket and authorizes, as Reconnect states |
| Client.RestaurantClient.EnsureConnected | UIPizzaClient/RestaurantClient.h:145-148 | a dead connection reconnects, a live one is left alone |
| Client.RestaurantClient.WriteRequest | UIPizzaClient/RestaurantClient.cpp:57-60 | the request goes out on an ensured connection under the next request id, which is returned |
| Client.RestaurantClient.Authorize | UIPizzaClient/RestaurantClient.cpp:12-15 | an authorization request with the current token is written |
| Client.RestaurantClient.AuthorizeWith | UIPizzaClient/RestaurantClient.cpp:17-20 | the token is replaced first, then an authorization request with the new token is written |
| Client.RestaurantClient.QueryDeleteShift | UIPizzaClient/RestaurantClient.cpp:26-29 | a shift deletion request is written |
| Client.RestaurantClient.QueryShiftsByDay | UIPizzaClient/RestaurantClient.cpp:31-34 | a day's shifts request is written |
| Client.RestaurantClient.QueryWorkers | UIPizzaClient/RestaurantClient.cpp:36-39 | a workers request is written |
| Client.RestaurantClient.QueryInsertShift | UIPizzaClient/RestaurantClient.cpp:41-44 | a shift insertion request with the modify flag is written |
| Client.RestaurantClient.QueryUpdateShift | UIPizzaClient/RestaurantClient.h:205-207 | a shift insertion request that modifies is written |
| Client.RestaurantClient.QueryInsertWorker | UIPizzaClient/RestaurantClient.cpp:46-49 | a worker insertion request with the modify flag is written |
| Client.RestaurantClient.QueryUpdateWorker | UIPizzaClient/RestaurantClient.h:237-239 | a worker insertion request that modifies is written |
| Client.RestaurantClient.QueryDeleteWorker | UIPizzaClient/RestaurantClient.cpp:51-54 | a worker deletion request is written |
| Client.RestaurantClient.DeleteShift | UIPizzaClient/RestaurantClient.cpp:79-86 | the cache becomes Dropped of the old cache; endpoint and permissions are kept |
| Client.RestaurantClient.InsertShift | UIPizzaClient/RestaurantClient.cpp:70-77 | the cache becomes Cached of the old cache; endpoint and permissions are kept |
| Client.RestaurantClient.DeleteWorker | UIPizzaClient/RestaurantClient.cpp:88-98 | the cache becomes Forgotten of the old cache; endpoint and permissions are kept |
| Client.RestaurantClient.GetShift | UIPizzaClient/RestaurantClient.cpp:100-106 | the cached shift or "Not Found", as ShiftAt |
| Client.RestaurantClient.GetWorker | UIPizzaClient/RestaurantClient.cpp:62-68 | the cached worker or "Not Found", as WorkerAt |
| Client.RestaurantClient.GetShifts | UIPizzaClient/RestaurantClient.cpp:108-119 | the day's shifts or "Not Found", as DayShifts |
| Client.RestaurantClient.DropAll | UIPizzaClient/RestaurantClient.cpp:168-170 | each id is deleted in turn |
| Client.RestaurantClient.ForgetAll | UIPizzaClient/RestaurantClient.cpp:171-173 | each worker id is deleted in turn |
| Client.RestaurantClient.PutAll | UIPizzaClient/RestaurantClient.cpp:174-176 | each worker is stored under its id in turn |
| Client.RestaurantClient.CacheAll | UIPizzaClient/RestaurantClient.cpp:177-179 | each shift is inserted in turn |
| Client.RestaurantClient.OnAuthorize | UIPizzaClient/RestaurantClient.cpp:121-123 | the reply's permissions replace the held ones and the cache is kept |
| Client.RestaurantClient.OnDeleteShift | UIPizzaClient/RestaurantClient.cpp:125-129 | a successful reply deletes the shift; a failed one changes nothing |
| Client.RestaurantClient.OnGetShiftsByDay | UIPizzaClient/RestaurantClient.cpp:131-136 | every shift of the reply is inserted, in ascending order |
| Client.RestaurantClient.OnGetWorkers | UIPizzaClient/RestaurantClient.cpp:138-142 | the reply's workers are merged into the cache |
| Client.RestaurantClient.OnInsertShift | UIPizzaClient/RestaurantClient.cpp:144-148 | a successful reply inserts its shift; a failed one changes nothing |
| Client.RestaurantClient.OnInsertWorker | UIPizzaClient/RestaurantClient.cpp:150-154 | a successful reply stores its worker; a failed one changes nothing |
| Client.RestaurantClient.OnDeleteWorker | UIPizzaClient/RestaurantClient.cpp:156-165 | a successful reply erases the worker and releases its shifts even when the worker was not cached; a failed one changes nothing |
| Client.RestaurantClient.OnSync | UIPizzaClient/RestaurantClient.cpp:167-180 | removed shifts, removed workers, changed workers and changed shifts are applied in that order |
| Client.RestaurantClient.Invoke | BaseLibrary/ConnectionBase.h:85-92 | the handler registered for the payload's class does what Handled states |
| Client.RestaurantClient.OnPayloadReceived | BaseLibrary/ConnectionBase.h:85-92 | exactly the handlers under the payload's tag run: a handled payload changes the cache as Handled states, any other changes nothing |
| Text.FirstNotOf | UIPizzaClient/utils.cpp:25 | find_first_not_of: the first position whose character is not in the set, with every earlier one in it, or npos when there is none |
| Text.LastNotOf | UIPizzaClient/utils.cpp:30 | find_last_not_of: the last position whose character is not in the set, with every later one in it, or npos when there is none |
| Text.Erase | UIPizzaClient/utils.cpp:24-32 | erase removes up to count characters from the position, and a count past the end removes the rest |
| Text.LTrim | UIPizzaClient/utils.cpp:24-27 | ltrim leaves a suffix whose erased characters are all in the set and which does not start with one |
| Text.RTrim | UIPizzaClient/utils.cpp:29-32 | rtrim leaves a prefix whose erased characters are all in the set and which does not end with one, the npos + 1 wrap included |
| Text.Trim | UIPizzaClient/utils.cpp:35-37 | trim leaves a contiguous piece with only characters of the set around it, which neither starts nor ends with one |
| Text.LTrimAway | UIPizzaClient/utils.cpp:24-27 | ltrim erases everything exactly when every character is in the set |
| Text.RTrimAway | UIPizzaClient/utils.cpp:29-32 | rtrim erases everything exactly when every character is in the set |
| Text.TrimAway | UIPizzaClient/utils.cpp:35-37 | trim erases everything exactly when every character is in the set |
| Text.LTrimKept | UIPizzaClient/utils.cpp:24-27 | a string that does not start with a character of the set is left as it is |
| Text.RTrimKept | UIPizzaClient/utils.cpp:29-32 | a string that does not end with a character of the set is left as it is |
| Text.TrimTwice | UIPizzaClient/utils.cpp:24-37 | ltrim, rtrim and trim are idempotent |
| Text.TrimSurrounded | UIPizzaClient/utils.cpp:34-37 | `trim` removes exactly the characters of the set around a piece that neither starts nor ends with one of them |
| Text.TrimBlanks | UIPizzaClient/utils.h:31-45 | with the default set `L" \t\n\r\f\v"`, `trim` takes off the blanks around a word and leaves a word without surrounding blanks as it is |
| Text.AsHourString | UIPizzaClient/utils.cpp:19-21 | the label is decimal digits followed by ":00", and the digits read back as the hour |
| Text.HourStringInjective | UIPizzaClient/utils.cpp:19-21 | two times get the same label exactly when they have the same hour |

## Left out

- Real sockets and name resolution, `connect(host, port)` included. The
  network's answer to a dial is a parameter (`Client.Dial`). A socket is a
  value: its connected flag, the bytes waiting to be read, and how many more
  bytes it accepts.
- The asynchronous reading thread (`readAsync`, `setReadingAsync`, thread
  join and detach), recursive mutexes and the locking in
  `onPayloadReceived`. These are concurrency. The reading mode is a flag
  that `readSync` checks.
- `PingService`, `Server.cpp`/`Server.h` (the accept loop, the
  per-client threads and the client list, except for `writeToAll`'s write
  to the requester), `Server/Source.cpp`, and library init and shutdown.
  These are threads, timers, files and process startup.
- `writeToAll`: the packets the server hands to it are recorded in order as
  a broadcast log, and the requesting connection, which is one of the
  server's clients, is sent its own copy of each before its reply
  (`Manager.SyncedTo`). The server's other client connections are not
  modelled, so their copies appear only in the log.
- The wxWidgets GUI, the message-box helpers, `s2ws`/`ws2s` (codecvt) and
  `asDateModel`/`asWxDateTimeModel` in `utils.cpp`. These are GUI and
  library conversions.
- C++ references and pointers. `getShift`, `getWorker` and `getShifts`
  return values rather than references into the cache, so aliasing through
  them is not captured. A `std::reference_wrapper` set becomes a set of
  shifts.
- `DataBag`'s `shared_ptr<void>` type erasure: one bag holds values of one
  type. The bodies of `clear` and `remove` are not part of this model,
  because they are declared only.
- `memory_buf(nullptr, n)`: the model's buffer constructor takes an array
  of `n` bytes, so the null-pointer variant is not modelled.
- OS error strings in socket exceptions: a failed send or receive carries a
  fixed message.
- Client.RestaurantClient.constructor: `_permissions` is never initialised
  by the C++ constructor, so the model leaves the field unconstrained and
  its contract says nothing about it.
- Client.RestaurantClient.OnConnected: only the reaction that writes the
  authorization is modelled. `ConnectionObserver::onConnected` does nothing,
  and `setReadingAsync(true)` starts a thread.
- Registry.TypeRegistry.RegisterType: the registry invariant (parent chains
  ranked by registration order, so `is_assignable` ends) is promised again
  only when the new tag is not its own parent and no registered type names
  it as a parent. Registering a tag that an existing entry already names as
  parent could close a cycle the model does not rule out.
- Permissions.Or: states that the result contains both operands bit for
  bit. It does not say that no other bit is set.
- Permissions.And: states that the result is contained in both operands. It
  does not say that every common bit is kept.
- Text.LTrim, Text.RTrim, Text.Trim, Text.FirstNotOf, Text.LastNotOf: they
  require the string to be shorter than `npos`, the largest `size_t`, which
  no string in memory reaches.
- Text.LTrim, Text.RTrim, Text.Trim: `std::wstring` is modified in place and
  returned by reference. The model returns the new string.
- Connections.WriteRequestSpec: (`writeRequestSync`) is built on the corrected write of the first row of "## Findings" (`Connections.WriteSyncSpec`): a payload whose encoding is longer than `MAX_PACKET_SIZE` is refused with "Exceeded max packet size" and the send stream stays good, where the code as written fails the send stream for every later write (`Connections.OversizePoisonsSendStream`). The two writes agree on every payload that fits (`Connections.WritesAgree`).
- Connections.WriteReplySpec: (`writeReplySync`) is built on the corrected write of the first row of "## Findings" (`Connections.WriteSyncSpec`): a payload whose encoding is longer than `MAX_PACKET_SIZE` is refused with "Exceeded max packet size" and the send stream stays good, where the code as written fails the send stream for every later write (`Connections.OversizePoisonsSendStream`). The two writes agree on every payload that fits (`Connections.WritesAgree`).
- Connections.Connection.WriteRequestSync: is built on the corrected write of the first row of "## Findings" (`Connections.WriteSyncSpec`): a payload whose encoding is longer than `MAX_PACKET_SIZE` is refused with "Exceeded max packet size" and the send stream stays good, where the code as written fails the send stream for every later write (`Connections.OversizePoisonsSendStream`). The two writes agree on every payload that fits (`Connections.WritesAgree`).
- Connections.Connection.WriteReplySync: is built on the corrected write of the first row of "## Findings" (`Connections.WriteSyncSpec`): a payload whose encoding is longer than `MAX_PACKET_SIZE` is refused with "Exceeded max packet size" and the send stream stays good, where the code as written fails the send stream for every later write (`Connections.OversizePoisonsSendStream`). The two writes agree on every payload that fits (`Connections.WritesAgree`).
- Connections.Connection.WriteReplyTo: is built on the corrected write of the first row of "## Findings" (`Connections.WriteSyncSpec`): a payload whose encoding is longer than `MAX_PACKET_SIZE` is refused with "Exceeded max packet size" and the send stream stays good, where the code as written fails the send stream for every later write (`Connections.OversizePoisonsSendStream`). The two writes agree on every payload that fits (`Connections.WritesAgree`).
- Connections.ReadSyncSpec: (`readSync`) is built on the strict read of the second row of "## Findings" (`Connections.ReadFrameWith` with `strict`): a frame whose decoding runs past its body is dropped and the next read starts from a cleared stream, where the code as written delivers it and fails the following read. The two reads agree whenever the read as written leaves the receive stream good (`Connections.ReadsAgree`).
- Connections.Connection.ReadSync: is built on the strict read of the second row of "## Findings" (`Connections.ReadFrameWith` with `strict`): a frame whose decoding runs past its body is dropped and the next read starts from a cleared stream, where the code as written delivers it and fails the following read. The two reads agree whenever the read as written leaves the receive stream good (`Connections.ReadsAgree`).
- Connections.Connection.ReadSyncInternal: is built on the strict read of the second row of "## Findings" (`Connections.ReadFrameWith` with `strict`): a frame whose decoding runs past its body is dropped and the next read starts from a cleared stream, where the code as written delivers it and fails the following read. The two reads agree whenever the read as written leaves the receive stream good (`Connections.ReadsAgree`).
- Manager.RestaurantManager.Answered: (every reply of the server) is built on the corrected write of the first row of "## Findings" (`Connections.WriteSyncSpec`): a payload whose encoding is longer than `MAX_PACKET_SIZE` is refused with "Exceeded max packet size" and the send stream stays good, where the code as written fails the send stream for every later write (`Connections.OversizePoisonsSendStream`). The two writes agree on every payload that fits (`Connections.WritesAgree`). Besides the shift and worker lists of the query replies, a request that just fits can lead there too: the `S2C_ClientSync` announcing an inserted shift or worker carries four set counts (32 bytes) where the request carries a request id and a flag (5 bytes), so a `C2S_InsertShift` or `C2S_InsertWorker` whose body is exactly `MAX_PACKET_SIZE` gives a sync 27 bytes over the limit, and its insert reply, with a flag and an empty message after the request id, 8 bytes over.
- Manager.SyncedTo: (the requester's copy of each `writeToAll` packet) is built on the corrected write of the first row of "## Findings" (`Connections.WriteSyncSpec`): an oversized sync, such as the one an insert request that just fits gives (see `Manager.RestaurantManager.Answered` above), is refused and the requester's send stream stays good, where the code as written fails that stream, swallows the exception in `writeToAll`, and then fails the reply and every later write on the connection (`Connections.OversizePoisonsSendStream`, `Connections.FailedSendStreamRefusesAll`). The two writes agree on every payload that fits (`Connections.WritesAgree`).
- Manager.WriteToRequester: ends in `Manager.SyncedTo`, so it is built on the same corrected write, with the same difference on an oversized sync. The two writes agree on every payload that fits (`Connections.WritesAgree`).
- Manager.RestaurantManager.HandleGetShiftsByDay: replies through `Answered`, so it is built on the corrected write of the first row of "## Findings" (`Connections.WriteSyncSpec`): a payload whose encoding is longer than `MAX_PACKET_SIZE` is refused with "Exceeded max packet size" and the send stream stays good, where the code as written fails the send stream for every later write (`Connections.OversizePoisonsSendStream`). The two writes agree on every payload that fits (`Connections.WritesAgree`).
- Manager.RestaurantManager.HandleGetWorkers: replies through `Answered`, so it is built on the corrected write of the first row of "## Findings" (`Connections.WriteSyncSpec`): a payload whose encoding is longer than `MAX_PACKET_SIZE` is refused with "Exceeded max packet size" and the send stream stays good, where the code as written fails the send stream for every later write (`Connections.OversizePoisonsSendStream`). The two writes agree on every payload that fits (`Connections.WritesAgree`).
- Manager.RestaurantManager.HandleInsertShift: sends the requester its sync copy and the reply through `Answered`, so it is built on the corrected write of the first row of "## Findings" (`Connections.WriteSyncSpec`): a payload whose encoding is longer than `MAX_PACKET_SIZE` is refused with "Exceeded max packet size" and the send stream stays good, where the code as written fails the send stream for every later write (`Connections.OversizePoisonsSendStream`). The two writes agree on every payload that fits (`Connections.WritesAgree`).
- Manager.RestaurantManager.HandleInsertWorker: sends the requester its sync copy and the reply through `Answered`, so it is built on the corrected write of the first row of "## Findings" (`Connections.WriteSyncSpec`): a payload whose encoding is longer than `MAX_PACKET_SIZE` is refused with "Exceeded max packet size" and the send stream stays good, where the code as written fails the send stream for every later write (`Connections.OversizePoisonsSendStream`). The two writes agree on every payload that fits (`Connections.WritesAgree`).
- Manager.RestaurantManager.Invoke: routes to the handlers above, which reply through `Answered`, so it is built on the corrected write of the first row of "## Findings" (`Connections.WriteSyncSpec`): a payload whose encoding is longer than `MAX_PACKET_SIZE` is refused with "Exceeded max packet size" and the send stream stays good, where the code as written fails the send stream for every later write (`Connections.OversizePoisonsSendStream`). The two writes agree on every payload that fits (`Connections.WritesAgree`).
- Manager.RestaurantManager.OnPayloadReceived: answers through `Answered`, so it is built on the corrected write of the first row of "## Findings" (`Connections.WriteSyncSpec`): a payload whose encoding is longer than `MAX_PACKET_SIZE` is refused with "Exceeded max packet size" and the send stream stays good, where the code as written fails the send stream for every later write (`Connections.OversizePoisonsSendStream`). The two writes agree on every payload that fits (`Connections.WritesAgree`).
- Client.Authorized: sends through `Connections.WriteRequestSpec`, so it is built on the corrected write of the first row of "## Findings" (`Connections.WriteSyncSpec`): a payload whose encoding is longer than `MAX_PACKET_SIZE` is refused with "Exceeded max packet size" and the send stream stays good, where the code as written fails the send stream for every later write (`Connections.OversizePoisonsSendStream`). The two writes agree on every payload that fits (`Connections.WritesAgree`).
- Client.Reconnect: authorizes through `Client.Authorized`, so it is built on the corrected write of the first row of "## Findings" (`Connections.WriteSyncSpec`): a payload whose encoding is longer than `MAX_PACKET_SIZE` is refused with "Exceeded max packet size" and the send stream stays good, where the code as written fails the send stream for every later write (`Connections.OversizePoisonsSendStream`). The two writes agree on every payload that fits (`Connections.WritesAgree`).
- Client.Ensured: reconnects through `Client.Reconnect`, so it is built on the corrected write of the first row of "## Findings" (`Connections.WriteSyncSpec`): a payload whose encoding is longer than `MAX_PACKET_SIZE` is refused with "Exceeded max packet size" and the send stream stays good, where the code as written fails the send stream for every later write (`Connections.OversizePoisonsSendStream`). The two writes agree on every payload that fits (`Connections.WritesAgree`).
- Client.Requested: sends through `Connections.WriteRequestSpec`, so it is built on the corrected write of the first row of "## Findings" (`Connections.WriteSyncSpec`): a payload whose encoding is longer than `MAX_PACKET_SIZE` is refused with "Exceeded max packet size" and the send stream stays good, where the code as written fails the send stream for every later write (`Connections.OversizePoisonsSendStream`). The two writes agree on every payload that fits (`Connections.WritesAgree`).
- Client.RestaurantClient.OnConnected: writes the authorization through `Connections.Connection.WriteRequestSync`, so it is built on the corrected write of the first row of "## Findings" (`Connections.WriteSyncSpec`): a payload whose encoding is longer than `MAX_PACKET_SIZE` is refused with "Exceeded max packet size" and the send stream stays good, where the code as written fails the send stream for every later write (`Connections.OversizePoisonsSendStream`). The two writes agree on every payload that fits (`Connections.WritesAgree`).
- Client.RestaurantClient.Connect: authorizes through the corrected write, so it is built on the corrected write of the first row of "## Findings" (`Connections.WriteSyncSpec`): a payload whose encoding is longer than `MAX_PACKET_SIZE` is refused with "Exceeded max packet size" and the send stream stays good, where the code as written fails the send stream for every later write (`Connections.OversizePoisonsSendStream`). The two writes agree on every payload that fits (`Connections.WritesAgree`).
- Client.RestaurantClient.EnsureConnected: reconnects and authorizes through the corrected write, so it is built on the corrected write of the first row of "## Findings" (`Connections.WriteSyncSpec`): a payload whose encoding is longer than `MAX_PACKET_SIZE` is refused with "Exceeded max packet size" and the send stream stays good, where the code as written fails the send stream for every later write (`Connections.OversizePoisonsSendStream`). The two writes agree on every payload that fits (`Connections.WritesAgree`).
- Client.RestaurantClient.WriteRequest: is built on the corrected write of the first row of "## Findings" (`Connections.WriteSyncSpec`): a payload whose encoding is longer than `MAX_PACKET_SIZE` is refused with "Exceeded max packet size" and the send stream stays good, where the code as written fails the send stream for every later write (`Connections.OversizePoisonsSendStream`). The two writes agree on every payload that fits (`Connections.WritesAgree`).
- Client.RestaurantClient.Authorize: sends a token of any length, so it is built on the corrected write of the first row of "## Findings" (`Connections.WriteSyncSpec`): a payload whose encoding is longer than `MAX_PACKET_SIZE` is refused with "Exceeded max packet size" and the send stream stays good, where the code as written fails the send stream for every later write (`Connections.OversizePoisonsSendStream`). The two writes agree on every payload that fits (`Connections.WritesAgree`).
- Client.RestaurantClient.AuthorizeWith: sends a token of any length, so it is built on the corrected write of the first row of "## Findings" (`Connections.WriteSyncSpec`): a payload whose encoding is longer than `MAX_PACKET_SIZE` is refused with "Exceeded max packet size" and the send stream stays good, where the code as written fails the send stream for every later write (`Connections.OversizePoisonsSendStream`). The two writes agree on every payload that fits (`Connections.WritesAgree`).
- Client.RestaurantClient.QueryInsertShift: sends a job name of any length, so it is built on the corrected write of the first row of "## Findings" (`Connections.WriteSyncSpec`): a payload whose encoding is longer than `MAX_PACKET_SIZE` is refused with "Exceeded max packet size" and the send stream stays good, where the code as written fails the send stream for every later write (`Connections.OversizePoisonsSendStream`). The two writes agree on every payload that fits (`Connections.WritesAgree`).
- Client.RestaurantClient.QueryUpdateShift: sends a job name of any length, so it is built on the corrected write of the first row of "## Findings" (`Connections.WriteSyncSpec`): a payload whose encoding is longer than `MAX_PACKET_SIZE` is refused with "Exceeded max packet size" and the send stream stays good, where the code as written fails the send stream for every later write (`Connections.OversizePoisonsSendStream`). The two writes agree on every payload that fits (`Connections.WritesAgree`).
- Client.RestaurantClient.QueryInsertWorker: sends names and a title of any length, so it is built on the corrected write of the first row of "## Findings" (`Connections.WriteSyncSpec`): a payload whose encoding is longer than `MAX_PACKET_SIZE` is refused with "Exceeded max packet size" and the send stream stays good, where the code as written fails the send stream for every later write (`Connections.OversizePoisonsSendStream`). The two writes agree on every payload that fits (`Connections.WritesAgree`).
- Client.RestaurantClient.QueryUpdateWorker: sends names and a title of any length, so it is built on the corrected write of the first row of "## Findings" (`Connections.WriteSyncSpec`): a payload whose encoding is longer than `MAX_PACKET_SIZE` is refused with "Exceeded max packet size" and the send stream stays good, where the code as written fails the send stream for every later write (`Connections.OversizePoisonsSendStream`). The two writes agree on every payload that fits (`Connections.WritesAgree`).
- Binary.ParseString: `new char[len]` runs before anything is read, and a length too large to allocate throws `std::bad_alloc`. How large that is depends on the machine, so the model allocates any length. It short-reads and zero-fills instead of throwing. The same holds for `Binary.IStream.ReadString` and for every decoder that reads a string.
- Binary.ParseWString: a count whose byte size overflows `size_t` throws `std::bad_array_new_length` (`BadAlloc`), which escapes the `runtime_error` handler of `readSyncInternal`. A smaller count that is still too large to allocate throws `std::bad_alloc` in the source, but the model allocates it, as for `Binary.ParseString`.
- Binary.RawRead: a short read leaves the bytes it could not supply indeterminate, and so does the uninitialised `size_t len` of `read_string`. The model reads them as zero. Only a field with a zero default, such as `_requestId`, really reads as zero in the source. `Registry.Peek` relies on this zero fill.
- Binary.ReadBool: a stored byte other than 0 or 1 read into a `bool` is undefined behaviour in the source. The model reads any non-zero byte as `true`.
- Client.Reconnect: the model's client is the connection's only observer. The GUI subscribes the application as a second observer, and then the source runs the client's `authorize()` at its turn in the notification loop, telling each later observer only while the connection is alive. `Reconnect` tells every observer first and authorizes after.
- Client.RestaurantClient.Valid: requires the client to be the connection's only observer. The GUI's second observer is not modelled.

## Findings

| source | as written | input that shows it | evidently intended | confidence | as-written member | corrected member |
|---|---|---|---|---|---|---|
| BaseLibrary/Connection.cpp:102-124 | `writeSync` serializes into a buffer with room for exactly `MAX_PACKET_SIZE` bytes after the header. An oversized payload overflows it and fails the send stream, so the "Exceeded max packet size" check never fires. The header write then throws "invalid destination stream", and the stream is never cleared. | Any payload whose encoding is longer than 65536 bytes, for example a `S2C_GetShiftsReply` with enough shifts. Every later `writeSync` on that connection then fails. | The oversized payload is refused with "Exceeded max packet size", and the send stream stays usable. | high, not executed | Connections.PutFrameOverflow, Connections.OversizePoisonsSendStream, Connections.FailedSendStreamRefusesAll | Connections.WriteSyncSpec, Connections.WriteSyncKeepsStreamGood |
| BaseLibrary/Connection.cpp:133-163 | `readSyncInternal` decodes the body from a stream that is never cleared. A frame whose body ends early (a request id cut short) decodes with zero-filled bytes and leaves the receive stream failed. The next `readSync` then throws at the header read, outside the `try`. | A frame with header length 2 whose body is the `C2S_GetWorkers` tag and one byte of its request id | The short frame is rejected and the connection can go on reading. | medium, not executed | Connections.TruncatedFrameAccepted, Connections.FailedReceiveStreamRefusesAll | Connections.ReadFrameWith, Connections.StrictReadRecovers, Connections.StrictReadNeverBadStream |
