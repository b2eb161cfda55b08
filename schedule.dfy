/**
 * `Shift` and `ShiftWorker` (Shift.h, ShiftWorker.h): the two entities of the
 * schedule.  A shift's duration is validated against its start hour so that
 * it ends within the same day; a worker is a numbered name with a title.
 */
module Schedule {
  import opened Wire
  import opened Errors
  import opened Numerals
  import opened Binary
  import opened Ordering
  import opened Registry
  import opened Serial
  import opened Calendar

  // ---------------------------------------------------------------- Shift

  datatype Shift = Shift(id: U64, startTime: DateTime, workHours: U8, workerId: U64, jobName: WString)

  /** The shifts `setWorkHours` lets exist: at least one hour, ending by hour 23 of the start day. */
  predicate ValidDuration(s: Shift)
  {
    1 <= s.workHours && s.startTime.hour + s.workHours <= 23
  }

  predicate ValidShift(s: Shift)
  {
    ValidDateTime(s.startTime) && ValidDuration(s)
  }

  /** `setWorkHours`: validated against the current start hour. */
  function SetWorkHours(s: Shift, workHours: U8): (r: Result<Shift>)
    ensures r.Ok? <==> ValidDuration(s.(workHours := workHours))
    ensures r.Ok? ==> r.value == s.(workHours := workHours)
    ensures r.Fail? ==> r.error == InvalidArgument("Invalid shift duration")
  {
    if workHours == 0 || s.startTime.hour + workHours > 23 then Fail(InvalidArgument("Invalid shift duration"))
    else Ok(s.(workHours := workHours))
  }

  /**
   * `Shift(startTime, workHours, jobName, workerId, id)`: the `int` duration is
   * narrowed to `uint8_t` and validated against the start time, which is set first.
   */
  function MakeShift(startTime: DateTime, workHours: Int32, jobName: WString, workerId: U64, id: U64): (r: Result<Shift>)
    ensures r.Ok? <==> workHours % 0x100 != 0 && startTime.hour + workHours % 0x100 <= 23
    ensures r.Ok? ==> r.value == Shift(id, startTime, workHours % 0x100, workerId, jobName)
    ensures r.Fail? ==> r.error == InvalidArgument("Invalid shift duration")
  {
    var s :- SetWorkHours(Shift(id, startTime, 0, 0, []), workHours % 0x100);
    Ok(s.(workerId := workerId, jobName := jobName))
  }

  /** `Shift()`: 1970-01-01 00:00, one hour, no job name, ids 0. */
  const DefaultShift: Shift := Shift(0, DefaultDateTime, 1, 0, [])

  lemma DefaultShiftIsBuilt()
    ensures MakeShift(DefaultDateTime, 1, [], 0, 0) == Ok(DefaultShift)
    ensures ValidShift(DefaultShift)
  {
  }

  /** A duration accepted by the constructor or the setter leaves a valid shift whenever the start is valid. */
  lemma SetWorkHoursKeepsValid(s: Shift, workHours: U8)
    requires ValidDateTime(s.startTime)
    ensures SetWorkHours(s, workHours).Ok? ==> ValidShift(SetWorkHours(s, workHours).value)
  {
  }

  /** `getEndTime`: a copy of the start with `setHour(hour + workHours)`, which throws past hour 23. */
  function GetEndTime(s: Shift): (r: Result<DateTime>)
    ensures r.Ok? <==> s.startTime.hour + s.workHours <= 23
    ensures r.Ok? ==> r.value == s.startTime.(hour := s.startTime.hour + s.workHours)
  {
    SetHour(s.startTime, s.startTime.hour + s.workHours)
  }

  /** The end of a valid shift exists, is on the same day, at most hour 23, and strictly after the start. */
  lemma EndTimeOfValidShift(s: Shift)
    requires ValidShift(s)
    ensures GetEndTime(s).Ok?
    ensures var e := GetEndTime(s).value;
            e.date == s.startTime.date && e.hour <= 23 && ValidDateTime(e) &&
            DateTimeLess(s.startTime, e)
  {
  }

  /** `operator<`: lexicographic on (startTime, workHours, jobName, workerId, id). */
  function ShiftLess(a: Shift, b: Shift): bool
  {
    DateTimeLess(a.startTime, b.startTime) ||
    (a.startTime == b.startTime &&
     (a.workHours < b.workHours ||
      (a.workHours == b.workHours &&
       (SeqLess(a.jobName, b.jobName) ||
        (a.jobName == b.jobName &&
         (a.workerId < b.workerId || (a.workerId == b.workerId && a.id < b.id)))))))
  }

  /** The order `std::set<Shift>` relies on is a strict total order whose equivalence is `operator==`. */
  lemma ShiftLessTotal()
    ensures StrictTotal(ShiftLess)
  {
    DateTimeLessTotal();
    SeqLessTotal();
    forall a, b, c | ShiftLess(a, b) && ShiftLess(b, c) ensures ShiftLess(a, c) {
      if SeqLess(a.jobName, b.jobName) && SeqLess(b.jobName, c.jobName) {
        SeqLessTransitive(a.jobName, b.jobName, c.jobName);
      }
    }
    forall a, b | a != b ensures ShiftLess(a, b) || ShiftLess(b, a) {
      if a.jobName != b.jobName {
        SeqLessConnected(a.jobName, b.jobName);
      }
    }
  }

  /** `Shift::serialize`: tag, id, the nested start time with its own tag, duration, worker id, job name. */
  function ShiftOps(s: Shift): seq<WriteOp>
  {
    TagOps(TagShift) + U64Ops(s.id) + DateTimeOps(s.startTime, TagDateTime) + ShiftTailOps(s)
  }

  /** The fields `Shift::serialize` writes after the start time. */
  function ShiftTailOps(s: Shift): seq<WriteOp>
  {
    U8Ops(s.workHours) + U64Ops(s.workerId) + WStrOps(s.jobName)
  }

  /** `Shift::deserialize`: mirrors the encoding, re-validating the duration against the decoded start hour. */
  function DecodeShift(self: Shift, r: Reader): (o: Decoded<Shift>)
    ensures o.Done? ==> ValidShift(o.value)
    ensures !r.good ==> o == Threw(RuntimeError(BadStream), r)
  {
    var t :- CheckTag(TagShift, r);
    var id :- ReadU64(t.1);
    ShiftAfterStart(self, id.0, DecodeDateTime(self.startTime, TagDateTime, id.1))
  }

  /** Every valid shift round-trips; an invalid one makes a setter throw `invalid_argument`. */
  lemma {:induction false} ShiftRoundTrip(self: Shift, s: Shift, tail: seq<byte>)
    ensures var o := DecodeShift(self, Reader(Flatten(ShiftOps(s)) + tail, true));
            (o == Done(s, Reader(tail, true)) <==> ValidShift(s)) &&
            (!ValidShift(s) ==> o.Threw? && o.error.InvalidArgument?)
  {
    var r3 := Flatten(ShiftTailOps(s)) + tail;
    var r2 := Flatten(DateTimeOps(s.startTime, TagDateTime)) + r3;
    var r1 := Flatten(U64Ops(s.id)) + r2;
    var p1 := TagOps(TagShift);
    var p2 := p1 + U64Ops(s.id);
    var p3 := p2 + DateTimeOps(s.startTime, TagDateTime);
    FlattenThen(p3, ShiftTailOps(s), tail);
    FlattenThen(p2, DateTimeOps(s.startTime, TagDateTime), r3);
    FlattenThen(p1, U64Ops(s.id), r2);
    TagRoundTrip(TagShift, TagShift, r1);
    ReadU64RoundTrip(s.id, r2);
    DateTimeRoundTrip(self.startTime, s.startTime, TagDateTime, r3);
    if ValidDateTime(s.startTime) {
      ShiftTailRoundTrip(self, s, tail);
    }
  }

  /** Once a valid start time is read, the rest of a shift's bytes read back exactly when its duration is valid. */
  lemma {:induction false} ShiftTailRoundTrip(self: Shift, s: Shift, tail: seq<byte>)
    requires ValidDateTime(s.startTime)
    ensures var o := ShiftAfterStart(self, s.id, Done(s.startTime, Reader(Flatten(ShiftTailOps(s)) + tail, true)));
            (o == Done(s, Reader(tail, true)) <==> ValidDuration(s)) &&
            (!ValidDuration(s) ==> o.Threw? && o.error.InvalidArgument?)
  {
    var r5 := Flatten(WStrOps(s.jobName)) + tail;
    var r4 := Flatten(U64Ops(s.workerId)) + r5;
    FlattenThen(U8Ops(s.workHours) + U64Ops(s.workerId), WStrOps(s.jobName), tail);
    FlattenThen(U8Ops(s.workHours), U64Ops(s.workerId), r5);
    U8RoundTrip(s.workHours, r4);
    ReadU64RoundTrip(s.workerId, r5);
    WStrRoundTrip(s.jobName, tail);
    var a := self.(id := s.id, startTime := s.startTime, workHours := s.workHours);
    assert ValidDuration(a) == ValidDuration(s);
    if ValidDuration(s) {
      assert a.(workerId := s.workerId, jobName := s.jobName) == s;
    }
  }

  /** The part of `DecodeShift` after the start time has been read. */
  function ShiftAfterStart(self: Shift, id: U64, dt: Decoded<DateTime>): (o: Decoded<Shift>)
    ensures o.Done? && dt.Done? && ValidDateTime(dt.value) ==> ValidShift(o.value)
  {
    var st :- dt;
    var h :- ReadU8(st.1);
    var a :- Lift(SetWorkHours(self.(id := id, startTime := st.0), h.0), h.1);
    var w :- ReadU64(a.1);
    var j :- ReadWStr(w.1);
    Done(a.0.(workerId := w.0, jobName := j.0), j.1)
  }

  // ---------------------------------------------------------- ShiftWorker

  datatype ShiftWorker = ShiftWorker(id: U64, firstName: WString, lastName: WString, title: WString)

  /** `ShiftWorker()`: id 0 and empty names. */
  const DefaultWorker: ShiftWorker := ShiftWorker(0, [], [], [])

  /** A character of a wide-string literal as its `wchar_t` code unit. */
  function Unit(c: char): (u: WChar)
    requires c as int < 0x1_0000
    ensures u == c as int
  {
    c as int
  }

  /** `std::to_wstring` of an unsigned value. */
  function WDecimal(n: nat): (w: seq<WChar>)
    ensures |w| == |Decimal(n)| && forall i :: 0 <= i < |w| ==> w[i] == Decimal(n)[i] as int
  {
    var s := Decimal(n);
    seq(|s|, i requires 0 <= i < |s| => s[i] as int)
  }

  /** `toString`: `[id] first last (title)`. */
  function ToString(w: ShiftWorker): seq<WChar>
  {
    [Unit('[')] + WDecimal(w.id) + [Unit(']')] + Details(w)
  }

  /** What `toString` writes after the bracketed id: ` first last (title)`. */
  function Details(w: ShiftWorker): seq<WChar>
  {
    [Unit(' ')] + w.firstName + [Unit(' ')] + w.lastName + [Unit(' '), Unit('(')] + w.title + [Unit(')')]
  }

  predicate IsDigitUnit(u: WChar) { '0' as int <= u <= '9' as int }

  /** The length of the run of decimal digits that starts u. */
  function DigitRun(u: seq<WChar>): (k: nat)
    ensures k <= |u|
    ensures forall i :: 0 <= i < k ==> IsDigitUnit(u[i])
    ensures k < |u| ==> !IsDigitUnit(u[k])
  {
    if u == [] || !IsDigitUnit(u[0]) then 0 else 1 + DigitRun(u[1..])
  }

  /** A run of digit code units read as the characters they encode. */
  function Narrow(u: seq<WChar>): (s: string)
    requires forall i :: 0 <= i < |u| ==> IsDigitUnit(u[i])
    ensures |s| == |u| && forall i :: 0 <= i < |s| ==> IsDigit(s[i]) && s[i] as int == u[i]
  {
    seq(|u|, i requires 0 <= i < |u| && IsDigitUnit(u[i]) => u[i] as char)
  }

  /**
   * A left inverse of `toString` on the id: a `[`, a decimal numeral that fits
   * in 64 bits, then `]`.  It witnesses that `toString` keeps workers with
   * different ids apart; it is not the client's own (regex and `std::stoi`)
   * parsing, which this model does not cover.
   */
  function ParseBracketId(u: seq<WChar>): Option<U64>
  {
    if |u| == 0 || u[0] != '[' as int then None
    else
      var k := DigitRun(u[1..]);
      if k == 0 || 1 + k >= |u| || u[1 + k] != ']' as int then None
      else
        var v := ValueOf(Narrow(u[1..1 + k]));
        if v < 0x1_0000_0000_0000_0000 then Some(v) else None
  }

  lemma {:induction false} DigitRunOfNumeral(d: seq<WChar>, rest: seq<WChar>)
    requires forall i :: 0 <= i < |d| ==> IsDigitUnit(d[i])
    requires rest != [] && !IsDigitUnit(rest[0])
    ensures DigitRun(d + rest) == |d|
  {
    if d != [] {
      assert (d + rest)[1..] == d[1..] + rest;
      DigitRunOfNumeral(d[1..], rest);
    }
  }

  /** `toString` keeps the worker's id recoverable: the bracketed numeral it starts with reads back as the id. */
  lemma ToStringCarriesId(w: ShiftWorker)
    ensures ParseBracketId(ToString(w)) == Some(w.id)
  {
    var u := ToString(w);
    var d := WDecimal(w.id);
    var rest := [Unit(']')] + Details(w);
    assert u == [Unit('[')] + (d + rest);
    assert u[1..] == d + rest;
    DigitRunOfNumeral(d, rest);
    assert u[1..1 + |d|] == d;
    assert Narrow(d) == Decimal(w.id);
    DecimalValue(w.id);
  }

  /** `operator<`: lexicographic on (firstName, lastName, title, id). */
  function WorkerLess(a: ShiftWorker, b: ShiftWorker): bool
  {
    SeqLess(a.firstName, b.firstName) ||
    (a.firstName == b.firstName &&
     (SeqLess(a.lastName, b.lastName) ||
      (a.lastName == b.lastName &&
       (SeqLess(a.title, b.title) || (a.title == b.title && a.id < b.id)))))
  }

  lemma WorkerLessTotal()
    ensures StrictTotal(WorkerLess)
  {
    SeqLessTotal();
    forall a, b, c | WorkerLess(a, b) && WorkerLess(b, c) ensures WorkerLess(a, c) {
      if SeqLess(a.firstName, b.firstName) && SeqLess(b.firstName, c.firstName) {
        SeqLessTransitive(a.firstName, b.firstName, c.firstName);
      }
      if SeqLess(a.lastName, b.lastName) && SeqLess(b.lastName, c.lastName) {
        SeqLessTransitive(a.lastName, b.lastName, c.lastName);
      }
      if SeqLess(a.title, b.title) && SeqLess(b.title, c.title) {
        SeqLessTransitive(a.title, b.title, c.title);
      }
    }
    forall a, b | a != b ensures WorkerLess(a, b) || WorkerLess(b, a) {
      if a.firstName != b.firstName {
        SeqLessConnected(a.firstName, b.firstName);
      } else if a.lastName != b.lastName {
        SeqLessConnected(a.lastName, b.lastName);
      } else if a.title != b.title {
        SeqLessConnected(a.title, b.title);
      }
    }
  }

  /** `ShiftWorker::serialize`: tag, id, then the three names as wide strings. */
  function WorkerOps(w: ShiftWorker): seq<WriteOp>
  {
    TagOps(TagShiftWorker) + U64Ops(w.id) + WStrOps(w.firstName) + WStrOps(w.lastName) + WStrOps(w.title)
  }

  /** `ShiftWorker::deserialize`: every field is overwritten, with no validation. */
  function DecodeWorker(self: ShiftWorker, r: Reader): (o: Decoded<ShiftWorker>)
    ensures !r.good ==> o == Threw(RuntimeError(BadStream), r)
  {
    var t :- CheckTag(TagShiftWorker, r);
    var id :- ReadU64(t.1);
    var f :- ReadWStr(id.1);
    var l :- ReadWStr(f.1);
    var ti :- ReadWStr(l.1);
    Done(ShiftWorker(id.0, f.0, l.0, ti.0), ti.1)
  }

  /** Every worker round-trips, whatever code units its names hold. */
  lemma {:induction false} WorkerRoundTrip(self: ShiftWorker, w: ShiftWorker, tail: seq<byte>)
    ensures DecodeWorker(self, Reader(Flatten(WorkerOps(w)) + tail, true)) == Done(w, Reader(tail, true))
  {
    var r4 := Flatten(WStrOps(w.title)) + tail;
    var r3 := Flatten(WStrOps(w.lastName)) + r4;
    var r2 := Flatten(WStrOps(w.firstName)) + r3;
    var r1 := Flatten(U64Ops(w.id)) + r2;
    var p1 := TagOps(TagShiftWorker);
    var p2 := p1 + U64Ops(w.id);
    var p3 := p2 + WStrOps(w.firstName);
    var p4 := p3 + WStrOps(w.lastName);
    FlattenThen(p4, WStrOps(w.title), tail);
    FlattenThen(p3, WStrOps(w.lastName), r4);
    FlattenThen(p2, WStrOps(w.firstName), r3);
    FlattenThen(p1, U64Ops(w.id), r2);
    TagRoundTrip(TagShiftWorker, TagShiftWorker, r1);
    ReadU64RoundTrip(w.id, r2);
    WStrRoundTrip(w.firstName, r3);
    WStrRoundTrip(w.lastName, r4);
    WStrRoundTrip(w.title, tail);
  }
}
