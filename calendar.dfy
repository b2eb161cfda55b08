/**
 * `Date` and `DateTime` (Date.h, DateTime.h): value types whose setters
 * validate their argument, whose `deserialize` goes through those setters,
 * and whose `operator<` is lexicographic on their fields.
 */
module Calendar {
  import opened Wire
  import opened Errors
  import opened Binary
  import opened Ordering
  import opened Registry
  import opened Serial

  // ----------------------------------------------------------------- Date

  datatype Date = Date(year: U32, month: U8, day: U8)

  /** `Date()`: 1 January 1970. */
  const DefaultDate: Date := Date(1970, 1, 1)

  /** `Date(int, int, int)`: the fields are stored without validation, converted to their widths. */
  function MakeDate(year: Int32, month: Int32, day: Int32): (d: Date)
    ensures year >= 0 ==> d.year == year
    ensures 0 <= month < 0x100 ==> d.month == month
    ensures 0 <= day < 0x100 ==> d.day == day
  {
    Date(year % 0x1_0000_0000, month % 0x100, day % 0x100)
  }

  /** The dates the setters can produce. */
  predicate ValidDate(d: Date)
  {
    d.year < 0x8000_0000 && 1 <= d.month <= 12 && 1 <= d.day <= 31
  }

  function SetYear(d: Date, year: Int32): (r: Result<Date>)
    ensures r.Ok? <==> year >= 0
    ensures r.Ok? ==> r.value.year == year && r.value.(year := d.year) == d
    ensures r.Fail? ==> r.error == InvalidArgument("Invalid year")
  {
    if year < 0 then Fail(InvalidArgument("Invalid year")) else Ok(d.(year := year))
  }

  function SetMonth(d: Date, month: Int32): (r: Result<Date>)
    ensures r.Ok? <==> 1 <= month <= 12
    ensures r.Ok? ==> r.value.month == month && r.value.(month := d.month) == d
    ensures r.Fail? ==> r.error == InvalidArgument("Invalid month")
  {
    if month < 1 || month > 12 then Fail(InvalidArgument("Invalid month")) else Ok(d.(month := month))
  }

  function SetDay(d: Date, day: Int32): (r: Result<Date>)
    ensures r.Ok? <==> 1 <= day <= 31
    ensures r.Ok? ==> r.value.day == day && r.value.(day := d.day) == d
    ensures r.Fail? ==> r.error == InvalidArgument("Invalid day")
  {
    if day < 1 || day > 31 then Fail(InvalidArgument("Invalid day")) else Ok(d.(day := day))
  }

  /** The three setters, in the order `deserialize` applies them. */
  function SetDate(d: Date, year: Int32, month: Int32, day: Int32): (r: Result<Date>)
    ensures r.Ok? <==> 0 <= year && 1 <= month <= 12 && 1 <= day <= 31
    ensures r.Ok? ==> ValidDate(r.value)
  {
    var a :- SetYear(d, year);
    var b :- SetMonth(a, month);
    SetDay(b, day)
  }

  /** The valid dates are exactly those the setters accept: from any starting date they yield d itself. */
  lemma SettersBuildValidDates(start: Date, d: Date)
    ensures ValidDate(d) <==> SetDate(start, I32OfBits(d.year), d.month, d.day) == Ok(d)
  {
  }

  /** `operator<`: lexicographic on (year, month, day). */
  function DateLess(a: Date, b: Date): bool
  {
    a.year < b.year || (a.year == b.year && (a.month < b.month || (a.month == b.month && a.day < b.day)))
  }

  lemma DateLessTotal()
    ensures StrictTotal(DateLess)
  {
  }

  /** `operator<=`, `>`, `>=` are derived from `<`; with `<` total they mean what their names say. */
  lemma DateDerivedOrders(a: Date, b: Date)
    ensures !DateLess(b, a) <==> a == b || DateLess(a, b)
    ensures !DateLess(a, b) <==> a == b || DateLess(b, a)
  {
  }

  /** `Date::serialize`, with the tag of the receiver's dynamic class. */
  function DateOps(d: Date, own: Tag): seq<WriteOp>
  {
    TagOps(own) + U32Ops(d.year) + U8Ops(d.month) + U8Ops(d.day)
  }

  /** A `Result` of a setter, raised as the exception it throws at the stream's current state. */
  function Lift<T>(x: Result<T>, r: Reader): (o: Decoded<T>)
    ensures o.state == r
    ensures x.Ok? <==> o.Done?
    ensures x.Ok? ==> o.value == x.value
    ensures x.Fail? ==> o.error == x.error
  {
    match x
    case Ok(v) => Done(v, r)
    case Fail(e) => Threw(e, r)
  }

  /** `Date::deserialize` on the receiver `self`: the tag, then each field read and passed to its setter. */
  function DecodeDate(self: Date, own: Tag, r: Reader): (o: Decoded<Date>)
    ensures o.Done? ==> ValidDate(o.value)
    ensures !r.good ==> o == Threw(RuntimeError(BadStream), r)
  {
    var t :- CheckTag(own, r);
    var y :- ReadU32(t.1);
    var a :- Lift(SetYear(self, I32OfBits(y.0)), y.1);
    var m :- ReadU8(a.1);
    var b :- Lift(SetMonth(a.0, m.0), m.1);
    var d :- ReadU8(b.1);
    Lift(SetDay(b.0, d.0), d.1)
  }

  /** Every valid date round-trips, and only valid dates do: an invalid field throws `invalid_argument`. */
  lemma {:induction false} DateRoundTrip(self: Date, d: Date, own: Tag, tail: seq<byte>)
    requires own < 128
    ensures var o := DecodeDate(self, own, Reader(Flatten(DateOps(d, own)) + tail, true));
            (o == Done(d, Reader(tail, true)) <==> ValidDate(d)) &&
            (!ValidDate(d) ==> o.Threw? && o.error.InvalidArgument?)
  {
    var r3 := Flatten(U8Ops(d.day)) + tail;
    var r2 := Flatten(U8Ops(d.month)) + r3;
    var r1 := Flatten(U32Ops(d.year)) + r2;
    FlattenThen(TagOps(own) + U32Ops(d.year) + U8Ops(d.month), U8Ops(d.day), tail);
    FlattenThen(TagOps(own) + U32Ops(d.year), U8Ops(d.month), r3);
    FlattenThen(TagOps(own), U32Ops(d.year), r2);
    TagRoundTrip(own, own, r1);
    U32RoundTrip(d.year, r2);
    U8RoundTrip(d.month, r3);
    U8RoundTrip(d.day, tail);
  }

  /** A date's bytes carry its tag: a receiver of another class refuses them. */
  lemma DateWrongTag(self: Date, d: Date, own: Tag, written: Tag, tail: seq<byte>)
    requires own < 128 && written != own
    ensures DecodeDate(self, own, Reader(Flatten(DateOps(d, written)) + tail, true)).Threw?
  {
    var rest := Flatten(U32Ops(d.year) + U8Ops(d.month) + U8Ops(d.day)) + tail;
    assert DateOps(d, written) == TagOps(written) + (U32Ops(d.year) + U8Ops(d.month) + U8Ops(d.day));
    FlattenThen(TagOps(written), U32Ops(d.year) + U8Ops(d.month) + U8Ops(d.day), tail);
    TagRoundTrip(own, written, rest);
  }

  // ------------------------------------------------------------- DateTime

  /** A `DateTime` is a `Date` (its base-class part) and a time of day. */
  datatype DateTime = DateTime(date: Date, hour: U8, minute: U8, second: U8)

  function SetHour(t: DateTime, hour: Int32): (r: Result<DateTime>)
    ensures r.Ok? <==> 0 <= hour <= 23
    ensures r.Ok? ==> r.value.hour == hour && r.value.(hour := t.hour) == t
    ensures r.Fail? ==> r.error == InvalidArgument("Invalid hour")
  {
    if hour < 0 || hour > 23 then Fail(InvalidArgument("Invalid hour")) else Ok(t.(hour := hour))
  }

  function SetMinute(t: DateTime, minute: Int32): (r: Result<DateTime>)
    ensures r.Ok? <==> 0 <= minute <= 59
    ensures r.Ok? ==> r.value.minute == minute && r.value.(minute := t.minute) == t
    ensures r.Fail? ==> r.error == InvalidArgument("Invalid minute")
  {
    if minute < 0 || minute > 59 then Fail(InvalidArgument("Invalid minute")) else Ok(t.(minute := minute))
  }

  function SetSecond(t: DateTime, second: Int32): (r: Result<DateTime>)
    ensures r.Ok? <==> 0 <= second <= 59
    ensures r.Ok? ==> r.value.second == second && r.value.(second := t.second) == t
    ensures r.Fail? ==> r.error == InvalidArgument("Invalid second")
  {
    if second < 0 || second > 59 then Fail(InvalidArgument("Invalid second")) else Ok(t.(second := second))
  }

  /** The three time setters, in the order the constructor and `deserialize` apply them. */
  function SetTime(t: DateTime, hour: Int32, minute: Int32, second: Int32): (r: Result<DateTime>)
    ensures r.Ok? <==> 0 <= hour <= 23 && 0 <= minute <= 59 && 0 <= second <= 59
    ensures r.Ok? ==> r.value.date == t.date
  {
    var a :- SetHour(t, hour);
    var b :- SetMinute(a, minute);
    SetSecond(b, second)
  }

  /**
   * `DateTime(year, month, day, hour, minute, second)`: the date part is
   * stored unvalidated, the time goes through the validating setters.
   */
  function MakeDateTime(year: Int32, month: Int32, day: Int32, hour: Int32, minute: Int32, second: Int32)
    : (r: Result<DateTime>)
    ensures r.Ok? <==> 0 <= hour <= 23 && 0 <= minute <= 59 && 0 <= second <= 59
    ensures r.Ok? ==> r.value == DateTime(MakeDate(year, month, day), hour, minute, second)
  {
    SetTime(DateTime(MakeDate(year, month, day), 0, 0, 0), hour, minute, second)
  }

  /** `DateTime(date, hour, minute, second)`. */
  function DateTimeOf(d: Date, hour: Int32, minute: Int32, second: Int32): (r: Result<DateTime>)
    ensures r.Ok? <==> 0 <= hour <= 23 && 0 <= minute <= 59 && 0 <= second <= 59
    ensures r.Ok? ==> r.value == DateTime(d, hour, minute, second)
  {
    SetTime(DateTime(d, 0, 0, 0), hour, minute, second)
  }

  /** `DateTime()` is 1970-01-01 00:00:00, and `DateTime(date)` is midnight of that date. */
  lemma DefaultDateTimes(d: Date)
    ensures MakeDateTime(1970, 1, 1, 0, 0, 0) == Ok(DefaultDateTime)
    ensures DateTimeOf(d, 0, 0, 0) == Ok(DateTime(d, 0, 0, 0))
  {
  }

  const DefaultDateTime: DateTime := DateTime(DefaultDate, 0, 0, 0)

  /** `getDate`: the date part, time dropped. */
  function GetDate(t: DateTime): (d: Date)
    ensures DateTimeOf(d, t.hour, t.minute, t.second) == Ok(t) <==> t.hour <= 23 && t.minute <= 59 && t.second <= 59
  {
    t.date
  }

  predicate ValidDateTime(t: DateTime)
  {
    ValidDate(t.date) && t.hour <= 23 && t.minute <= 59 && t.second <= 59
  }

  /** `operator<`: lexicographic on (date, hour, minute, second). */
  function DateTimeLess(a: DateTime, b: DateTime): bool
  {
    DateLess(a.date, b.date) ||
    (a.date == b.date &&
     (a.hour < b.hour || (a.hour == b.hour && (a.minute < b.minute || (a.minute == b.minute && a.second < b.second)))))
  }

  lemma DateTimeLessTotal()
    ensures StrictTotal(DateTimeLess)
  {
    DateLessTotal();
  }

  /** `DateTime::serialize`: the `Date` part (carrying the dynamic tag once), then the three time bytes. */
  function DateTimeOps(t: DateTime, own: Tag): seq<WriteOp>
  {
    DateOps(t.date, own) + U8Ops(t.hour) + U8Ops(t.minute) + U8Ops(t.second)
  }

  /** `DateTime::deserialize`: the `Date` part, then the validating time setters. */
  function DecodeDateTime(self: DateTime, own: Tag, r: Reader): (o: Decoded<DateTime>)
    ensures o.Done? ==> ValidDateTime(o.value)
    ensures !r.good ==> o == Threw(RuntimeError(BadStream), r)
  {
    var d :- DecodeDate(self.date, own, r);
    var t0 := self.(date := d.0);
    var h :- ReadU8(d.1);
    var a :- Lift(SetHour(t0, h.0), h.1);
    var m :- ReadU8(a.1);
    var b :- Lift(SetMinute(a.0, m.0), m.1);
    var s :- ReadU8(b.1);
    Lift(SetSecond(b.0, s.0), s.1)
  }

  /** Every valid date-time round-trips, and only valid ones do. */
  lemma {:induction false} DateTimeRoundTrip(self: DateTime, t: DateTime, own: Tag, tail: seq<byte>)
    requires own < 128
    ensures var o := DecodeDateTime(self, own, Reader(Flatten(DateTimeOps(t, own)) + tail, true));
            (o == Done(t, Reader(tail, true)) <==> ValidDateTime(t)) &&
            (!ValidDateTime(t) ==> o.Threw? && o.error.InvalidArgument?)
  {
    var r3 := Flatten(U8Ops(t.second)) + tail;
    var r2 := Flatten(U8Ops(t.minute)) + r3;
    var r1 := Flatten(U8Ops(t.hour)) + r2;
    FlattenThen(DateOps(t.date, own) + U8Ops(t.hour) + U8Ops(t.minute), U8Ops(t.second), tail);
    FlattenThen(DateOps(t.date, own) + U8Ops(t.hour), U8Ops(t.minute), r3);
    FlattenThen(DateOps(t.date, own), U8Ops(t.hour), r2);
    DateRoundTrip(self.date, t.date, own, r1);
    U8RoundTrip(t.hour, r2);
    U8RoundTrip(t.minute, r3);
    U8RoundTrip(t.second, tail);
  }
}
