/**
 * The tables of `RestaurantManager` (BaseLibrary/RestaurantManager.h, BaseLibrary/RestaurantManager.cpp)
 * as values, and what each database operation does to them.
 *
 * Every operation is a function from the tables before the call to a `Step`:
 * the tables after it, the `S2C_ClientSync` packets it would hand to the
 * server's `writeToAll`, and its result (an exception is a `Fail`).  The
 * class in module Manager applies these steps to its fields.
 */
module Store {
  import opened Wire
  import opened Errors
  import opened Binary
  import opened Ordering
  import opened Registry
  import opened Serial
  import opened Calendar
  import opened Schedule
  import opened Packets
  import opened Bags
  import Permissions

  /** `_shifts`, `_shiftsByDay`, `_workers` and `_accessTokens`. */
  datatype Tables = Tables(
    shifts: map<U64, Shift>,
    byDay: map<Date, set<U64>>,
    workers: map<U64, ShiftWorker>,
    tokens: map<ByteString, U16>)

  const EmptyTables: Tables := Tables(map[], map[], map[], map[])

  /** The outcome of one operation: the new tables, the synchronisation packets it emits, its result. */
  datatype Step<+T> = Step(tables: Tables, syncs: seq<Payload>, result: T)

  const U64_MAX: U64 := 0xFFFF_FFFF_FFFF_FFFF

  const CollidesMsg: string := "Shift collides with existing ones"
  const ShiftMissingMsg: string := "Shift to be edited was not found"
  const WorkerMissingMsg: string := "Worker to be edited was not found"

  // ----------------------------------------------------------- identities

  /** The largest key of a non-empty map: the last one its iteration reaches. */
  function MaxKey<T>(m: map<U64, T>): (k: U64)
    requires m != map[]
    ensures k in m && forall j :: j in m ==> j <= k
  {
    U64LessTotal();
    var keys := Sorted(m.Keys, U64Less);
    assert |m.Keys| == |m| > 0;
    assert forall j :: j in m ==> j <= keys[|keys| - 1] by {
      forall j | j in m ensures j <= keys[|keys| - 1] {
        var i :| 0 <= i < |keys| && keys[i] == j;
        if i < |keys| - 1 {
          assert U64Less(keys[i], keys[|keys| - 1]);
        }
      }
    }
    keys[|keys| - 1]
  }

  /**
   * `newIdentityId`: one past the largest key, 1 for an empty map.  The
   * addition is `identity_t` arithmetic, so past the largest 64-bit key it
   * wraps to 0.
   */
  function NewIdentityId<T>(m: map<U64, T>): (id: U64)
    ensures m == map[] ==> id == 1
    ensures U64_MAX !in m ==> 0 < id && id !in m && forall k :: k in m ==> k < id
    ensures U64_MAX in m ==> id == 0
  {
    var last := if m == map[] then 0 else MaxKey(m);
    Wrap64(last + 1)
  }

  // ---------------------------------------------------------- permissions

  /** What a connection holds: the bag's "Permissions" entry, none before it authorizes. */
  function Held(bag: map<string, Permissions.Mask>): (p: Permissions.Mask)
    ensures "Permissions" !in bag ==> p == Permissions.None
  {
    Lookup(bag, "Permissions", Permissions.None)
  }

  /** `verifyPermission`: every required flag is among those held. */
  predicate VerifyPermission(held: Permissions.Mask, required: Permissions.Mask)
  {
    Permissions.And(held, required) == required
  }

  /** For a single flag the check is whether that flag is held; nothing required always passes. */
  lemma PermissionFlags(held: Permissions.Mask)
    ensures VerifyPermission(held, Permissions.View) <==> Permissions.Has(held, Permissions.View)
    ensures VerifyPermission(held, Permissions.Insert) <==> Permissions.Has(held, Permissions.Insert)
    ensures VerifyPermission(held, Permissions.Edit) <==> Permissions.Has(held, Permissions.Edit)
    ensures VerifyPermission(held, Permissions.Delete) <==> Permissions.Has(held, Permissions.Delete)
    ensures VerifyPermission(held, Permissions.None)
  {
  }

  /** A connection that never authorized passes no check that requires something. */
  lemma UnauthorizedPassesNothing(bag: map<string, Permissions.Mask>, required: Permissions.Mask)
    requires "Permissions" !in bag
    ensures VerifyPermission(Held(bag), required) <==> required == Permissions.None
  {
  }

  /** A super user passes every check of the manager; a normal user only the viewing ones. */
  lemma RolePermissions()
    ensures VerifyPermission(Permissions.SuperUser, Permissions.View)
    ensures VerifyPermission(Permissions.SuperUser, Permissions.Insert)
    ensures VerifyPermission(Permissions.SuperUser, Permissions.Delete)
    ensures VerifyPermission(Permissions.NormalUser, Permissions.View)
    ensures !VerifyPermission(Permissions.NormalUser, Permissions.Insert)
    ensures !VerifyPermission(Permissions.NormalUser, Permissions.Delete)
  {
  }

  // ----------------------------------------------------------- collisions

  /**
   * The test `verifyShift` applies to another shift of the same job: a
   * collision unless the new shift starts before the other and ends by its
   * start, or starts at or after the other's end.
   */
  predicate Collides(start: DateTime, finish: DateTime, oStart: DateTime, oFinish: DateTime)
  {
    !((DateTimeLess(start, oStart) && !DateTimeLess(oStart, finish)) || !DateTimeLess(start, oFinish))
  }

  /** The half-open periods [start, finish) and [oStart, oFinish) share an instant. */
  predicate Overlap(start: DateTime, finish: DateTime, oStart: DateTime, oFinish: DateTime)
  {
    DateTimeLess(start, oFinish) && DateTimeLess(oStart, finish)
  }

  /** For a period that is not empty, the collision test is exactly the overlap of the two periods. */
  lemma CollisionIsOverlap(start: DateTime, finish: DateTime, oStart: DateTime, oFinish: DateTime)
    requires DateTimeLess(start, finish)
    ensures Collides(start, finish, oStart, oFinish) <==> Overlap(start, finish, oStart, oFinish)
  {
    DateTimeLessTotal();
  }

  /** Two shifts whose end times exist and whose working hours overlap. */
  predicate Meets(a: Shift, b: Shift)
  {
    GetEndTime(a).Ok? && GetEndTime(b).Ok? &&
    Overlap(a.startTime, GetEndTime(a).value, b.startTime, GetEndTime(b).value)
  }

  lemma MeetsSymmetric(a: Shift, b: Shift)
    ensures Meets(a, b) <==> Meets(b, a)
  {
  }

  /** A valid shift's working hours start strictly before they end. */
  lemma ValidShiftIsNotEmpty(s: Shift)
    requires ValidDuration(s)
    ensures GetEndTime(s).Ok? && DateTimeLess(s.startTime, GetEndTime(s).value)
  {
  }

  /** `_shifts[id]`: the stored shift, or the default one the lookup inserts. */
  function At(m: map<U64, Shift>, id: U64): (s: Shift)
    ensures id in m ==> s == m[id]
    ensures id !in m ==> s == DefaultShift
  {
    if id in m then m[id] else DefaultShift
  }

  /**
   * The loop of `verifyShift` over the ids listed for the day, in ascending
   * order: the shift's own id is skipped, another job is skipped, an end time
   * that cannot be computed throws, a collision answers false.  Each lookup
   * may insert a default shift.
   */
  function Scan(m: map<U64, Shift>, ids: seq<U64>, shift: Shift, finish: DateTime): (r: (Result<bool>, map<U64, Shift>))
    ensures forall k :: k in m ==> k in r.1 && r.1[k] == m[k]
    decreases |ids|
  {
    if ids == [] then (Ok(true), m)
    else if ids[0] == shift.id then Scan(m, ids[1..], shift, finish)
    else
      var o := At(m, ids[0]);
      var m1 := m[ids[0] := o];
      if o.jobName != shift.jobName then Scan(m1, ids[1..], shift, finish)
      else match GetEndTime(o)
        case Fail(e) => (Fail(e), m1)
        case Ok(oFinish) =>
          if Collides(shift.startTime, finish, o.startTime, oFinish) then (Ok(false), m1)
          else Scan(m1, ids[1..], shift, finish)
  }

  /** The ids `_shiftsByDay` lists for a day, in the set's ascending order. */
  function DayOrder(ids: set<U64>): (xs: seq<U64>)
    ensures forall x :: x in xs <==> x in ids
  {
    U64LessTotal();
    Sorted(ids, U64Less)
  }

  /**
   * `verifyShift`: the end time is computed first (it may throw); then the
   * day's listed shifts are scanned.
   */
  function VerifyShift(t: Tables, shift: Shift): (st: Step<Result<bool>>)
    ensures st.syncs == [] && st.tables.byDay == t.byDay && st.tables.workers == t.workers && st.tables.tokens == t.tokens
    ensures GetEndTime(shift).Fail? ==> st.result == Fail(GetEndTime(shift).error) && st.tables == t
  {
    match GetEndTime(shift)
    case Fail(e) => Step(t, [], Fail(e))
    case Ok(finish) =>
      var d := shift.startTime.date;
      if d in t.byDay then
        var r := Scan(t.shifts, DayOrder(t.byDay[d]), shift, finish);
        Step(t.(shifts := r.1), [], r.0)
      else Step(t, [], Ok(true))
  }

  // ----------------------------------------------------------- invariants

  /** The ids listed for a day, none when the day has no entry. */
  function DayIds(byDay: map<Date, set<U64>>, d: Date): (ids: set<U64>)
    ensures d in byDay ==> ids == byDay[d]
    ensures d !in byDay ==> ids == {}
  {
    if d in byDay then byDay[d] else {}
  }

  /** `_shiftsByDay` lists exactly the stored shifts, each under the date it starts on. */
  ghost predicate Indexed(t: Tables)
  {
    (forall d, id :: d in t.byDay && id in t.byDay[d] ==> id in t.shifts && t.shifts[id].startTime.date == d) &&
    (forall id :: id in t.shifts ==> id in DayIds(t.byDay, t.shifts[id].startTime.date))
  }

  /** Every record is stored under its own non-zero id, and every stored shift and listed day is valid. */
  ghost predicate Keyed(t: Tables)
  {
    (forall id :: id in t.shifts ==> t.shifts[id].id == id && ValidShift(t.shifts[id])) &&
    (forall id :: id in t.workers ==> t.workers[id].id == id) &&
    (forall d :: d in t.byDay ==> ValidDate(d)) &&
    0 !in t.shifts && 0 !in t.workers
  }

  ghost predicate Consistent(t: Tables)
  {
    Indexed(t) && Keyed(t)
  }

  /** No two stored shifts of the same job overlap on the same day. */
  ghost predicate Disjoint(t: Tables)
  {
    forall a, b ::
      (a in t.shifts && b in t.shifts && a != b &&
       t.shifts[a].startTime.date == t.shifts[b].startTime.date && t.shifts[a].jobName == t.shifts[b].jobName)
      ==> !Meets(t.shifts[a], t.shifts[b])
  }

  /** The stored shifts, other than the one with shift's own id, that the shift would collide with. */
  function Rivals(t: Tables, shift: Shift): (ids: set<U64>)
    ensures forall id :: id in ids ==> id in t.shifts && id != shift.id
  {
    set id | id in t.shifts && id != shift.id && t.shifts[id].startTime.date == shift.startTime.date &&
             t.shifts[id].jobName == shift.jobName && Meets(t.shifts[id], shift)
  }

  predicate Rival(t: Tables, shift: Shift, id: U64)
  {
    id in t.shifts && id != shift.id && t.shifts[id].jobName == shift.jobName && Meets(t.shifts[id], shift)
  }

  /** On consistent tables the scan changes nothing and answers whether no listed id is a rival. */
  lemma {:induction false} ScanMeaning(t: Tables, ids: seq<U64>, shift: Shift, finish: DateTime)
    requires Keyed(t) && ValidDuration(shift) && GetEndTime(shift) == Ok(finish)
    requires forall i :: 0 <= i < |ids| ==> ids[i] in t.shifts
    ensures Scan(t.shifts, ids, shift, finish) == (Ok(forall i :: 0 <= i < |ids| ==> !Rival(t, shift, ids[i])), t.shifts)
    decreases |ids|
  {
    if ids != [] {
      ScanMeaning(t, ids[1..], shift, finish);
      var id := ids[0];
      assert forall i :: 1 <= i < |ids| ==> ids[i] == ids[1..][i - 1];
      if id != shift.id {
        var o := t.shifts[id];
        assert t.shifts[id := o] == t.shifts;
        if o.jobName == shift.jobName {
          ValidShiftIsNotEmpty(shift);
          assert ValidDuration(o);
          CollisionIsOverlap(shift.startTime, finish, o.startTime, GetEndTime(o).value);
          assert Collides(shift.startTime, finish, o.startTime, GetEndTime(o).value) <==> Rival(t, shift, id);
        }
      }
    }
  }

  /** On consistent tables `verifyShift` changes nothing and succeeds exactly when the shift has no rival. */
  lemma VerifyShiftMeaning(t: Tables, shift: Shift)
    requires Consistent(t) && ValidDuration(shift)
    ensures VerifyShift(t, shift) == Step(t, [], Ok(Rivals(t, shift) == {}))
  {
    var finish := GetEndTime(shift).value;
    var d := shift.startTime.date;
    if d in t.byDay {
      var ids := DayOrder(t.byDay[d]);
      ScanMeaning(t, ids, shift, finish);
      if Rivals(t, shift) != {} {
        var id :| id in Rivals(t, shift);
        assert id in t.byDay[d];
        var i :| 0 <= i < |ids| && ids[i] == id;
        assert Rival(t, shift, ids[i]);
      }
      assert t.(shifts := t.shifts) == t;
    } else {
      forall id | id in t.shifts ensures t.shifts[id].startTime.date != d {
        assert id in DayIds(t.byDay, t.shifts[id].startTime.date);
      }
      assert Rivals(t, shift) == {};
    }
  }

  // ------------------------------------------------------ synchronisation

  function RemovedShift(id: U64): Payload { ClientSync({}, {id}, {}, {}) }
  function ChangedShift(s: Shift): Payload { ClientSync({}, {}, {}, {s}) }
  function RemovedWorker(id: U64): Payload { ClientSync({id}, {}, {}, {}) }
  function ChangedWorker(w: ShiftWorker): Payload { ClientSync({}, {}, {w}, {}) }

  // ---------------------------------------------------------- operations

  /** `deleteShift`: an unknown id changes nothing; a known one leaves the table and its day's list. */
  function DeleteShift(t: Tables, id: U64): (st: Step<bool>)
    ensures st.result <==> id in t.shifts
    ensures !st.result ==> st == Step(t, [], false)
    ensures st.result ==> st.tables.shifts == t.shifts - {id} && st.syncs == [RemovedShift(id)]
    ensures st.tables.workers == t.workers && st.tables.tokens == t.tokens
  {
    if id !in t.shifts then Step(t, [], false)
    else
      var d := t.shifts[id].startTime.date;
      Step(t.(byDay := t.byDay[d := DayIds(t.byDay, d) - {id}], shifts := t.shifts - {id}), [RemovedShift(id)], true)
  }

  /** `_shifts[id] = shift; _shiftsByDay[date].insert(id)`, then the change is announced. */
  function Stored(t: Tables, syncs: seq<Payload>, s: Shift): (st: Step<Result<Shift>>)
    ensures st.result == Ok(s) && st.tables.shifts == t.shifts[s.id := s]
    ensures s.startTime.date in st.tables.byDay && s.id in st.tables.byDay[s.startTime.date]
    ensures st.syncs == syncs + [ChangedShift(s)]
  {
    var d := s.startTime.date;
    Step(t.(shifts := t.shifts[s.id := s], byDay := t.byDay[d := DayIds(t.byDay, d) + {s.id}]), syncs + [ChangedShift(s)], Ok(s))
  }

  /** The shift `insertShift` checks: a new one is checked under id 0, an edited one under its own id. */
  function Probe(shift: Shift, editing: bool): (p: Shift)
    ensures p == shift.(id := p.id) && (editing ==> p == shift)
  {
    if editing then shift else shift.(id := 0)
  }

  /**
   * `insertShift`: the collision check comes first; an edit then deletes the
   * shift it replaces (which must exist) and keeps its id, an insertion takes
   * the next identity.
   */
  function InsertShift(t: Tables, shift: Shift, editing: bool): (st: Step<Result<Shift>>)
    ensures st.result.Ok? ==> st.result.value == shift.(id := st.result.value.id)
    ensures st.result.Ok? && editing ==> st.result.value == shift
  {
    var id := shift.id;
    var probe := Probe(shift, editing);
    var v := VerifyShift(t, probe);
    match v.result
    case Fail(e) => Step(v.tables, [], Fail(e))
    case Ok(free) =>
      if !free then Step(v.tables, [], Fail(InvalidArgument(CollidesMsg)))
      else if editing then
        var del := DeleteShift(v.tables, id);
        if !del.result then Step(del.tables, del.syncs, Fail(InvalidArgument(ShiftMissingMsg)))
        else Stored(del.tables, del.syncs, probe)
      else
        Stored(v.tables, [], probe.(id := NewIdentityId(v.tables.shifts)))
  }

  /** A shift released by a worker being removed: its worker id becomes 0. */
  function Released(s: Shift, w: U64): (r: Shift)
    ensures r == s.(workerId := r.workerId)
    ensures r.workerId == (if s.workerId == w then 0 else s.workerId)
  {
    if s.workerId == w then s.(workerId := 0) else s
  }

  function Unassigned(m: map<U64, Shift>, w: U64): (u: map<U64, Shift>)
    ensures u.Keys == m.Keys && forall k :: k in m ==> u[k] == Released(m[k], w)
  {
    map k | k in m :: Released(m[k], w)
  }

  /** `deleteWorker`: a known worker leaves the table and every shift assigned to it becomes unassigned. */
  function DeleteWorker(t: Tables, w: U64): (st: Step<bool>)
    ensures st.result <==> w in t.workers
    ensures !st.result ==> st == Step(t, [], false)
    ensures st.result ==> st.tables.workers == t.workers - {w} && st.syncs == [RemovedWorker(w)]
    ensures st.result ==> st.tables.shifts.Keys == t.shifts.Keys &&
                          forall k :: k in t.shifts ==> st.tables.shifts[k] == Released(t.shifts[k], w)
    ensures st.tables.byDay == t.byDay && st.tables.tokens == t.tokens
  {
    if w !in t.workers then Step(t, [], false)
    else Step(t.(shifts := Unassigned(t.shifts, w), workers := t.workers - {w}), [RemovedWorker(w)], true)
  }

  /** `insertWorker`: an edit needs the worker to exist and keeps its id, an insertion takes the next identity. */
  function InsertWorker(t: Tables, worker: ShiftWorker, editing: bool): (st: Step<Result<ShiftWorker>>)
    ensures st.result.Fail? <==> editing && worker.id !in t.workers
    ensures st.result.Fail? ==> st == Step(t, [], Fail(InvalidArgument(WorkerMissingMsg)))
    ensures st.result.Ok? ==> var w := st.result.value;
              w == worker.(id := w.id) && (editing ==> w == worker) &&
              st.tables == t.(workers := t.workers[w.id := w]) && st.syncs == [ChangedWorker(w)]
  {
    if editing && worker.id !in t.workers then Step(t, [], Fail(InvalidArgument(WorkerMissingMsg)))
    else
      var id := if editing then worker.id else NewIdentityId(t.workers);
      var w := worker.(id := id);
      Step(t.(workers := t.workers[id := w]), [ChangedWorker(w)], Ok(w))
  }

  /** The table after `_shifts[id]` for every listed id: missing ids get a default shift. */
  function Filled(m: map<U64, Shift>, ids: set<U64>): (f: map<U64, Shift>)
    ensures f.Keys == m.Keys + ids && forall k :: k in f ==> f[k] == At(m, k)
  {
    map k | k in m.Keys + ids :: At(m, k)
  }

  /** The shifts `_shifts[id]` yields for the listed ids. */
  function Looked(m: map<U64, Shift>, ids: set<U64>): (ss: set<Shift>)
    ensures forall s :: s in ss <==> exists k :: k in ids && At(m, k) == s
  {
    set k | k in ids :: At(m, k)
  }

  /** A table holding every start entry, plus the listed ids, each with what the start table yields for it, is `Filled`. */
  lemma FilledPointwise(m: map<U64, Shift>, m0: map<U64, Shift>, ids: set<U64>)
    requires m.Keys == m0.Keys + ids && forall k :: k in m ==> m[k] == At(m0, k)
    ensures m == Filled(m0, ids)
  {
  }

  /** One more id looked up: the lookup's result grows by the shift the table yields for it. */
  lemma {:induction false} LookedStep(m: map<U64, Shift>, done: set<U64>, id: U64)
    ensures Looked(m, done) + {At(m, id)} == Looked(m, done + {id})
  {
    forall s ensures s in Looked(m, done) + {At(m, id)} <==> s in Looked(m, done + {id}) {
      if s in Looked(m, done + {id}) && s != At(m, id) {
        var k :| k in done + {id} && At(m, k) == s;
        assert k in done;
      }
    }
  }

  /** The loop of `handleGetShiftsByDay`: the shift of every id listed for the day. */
  function ShiftsOfDay(t: Tables, d: Date): (st: Step<set<Shift>>)
    ensures st.syncs == [] && st.tables == t.(shifts := st.tables.shifts)
  {
    if d in t.byDay then Step(t.(shifts := Filled(t.shifts, t.byDay[d])), [], Looked(t.shifts, t.byDay[d]))
    else Step(t, [], {})
  }

  // ------------------------------------------------------- their meaning

  /** On consistent tables a day's shifts are exactly the stored shifts starting that day, and nothing is added. */
  lemma ShiftsOfDayMeaning(t: Tables, d: Date)
    requires Indexed(t)
    ensures ShiftsOfDay(t, d).tables == t
    ensures forall s :: s in ShiftsOfDay(t, d).result <==> s in t.shifts.Values && s.startTime.date == d
  {
    if d in t.byDay {
      assert Filled(t.shifts, t.byDay[d]) == t.shifts;
      forall s | s in t.shifts.Values && s.startTime.date == d ensures s in Looked(t.shifts, t.byDay[d]) {
        var k :| k in t.shifts && t.shifts[k] == s;
        assert k in DayIds(t.byDay, t.shifts[k].startTime.date);
      }
    } else {
      forall s | s in t.shifts.Values ensures s.startTime.date != d {
        var k :| k in t.shifts && t.shifts[k] == s;
        assert k in DayIds(t.byDay, t.shifts[k].startTime.date);
      }
    }
  }

  /** Removing a shift keeps the tables consistent and free of overlaps. */
  lemma DeleteShiftKeeps(t: Tables, id: U64)
    requires Consistent(t)
    ensures Consistent(DeleteShift(t, id).tables)
    ensures Disjoint(t) ==> Disjoint(DeleteShift(t, id).tables)
  {
    var u := DeleteShift(t, id).tables;
    if id in t.shifts {
      var d0 := t.shifts[id].startTime.date;
      forall d, x | d in u.byDay && x in u.byDay[d] ensures x in u.shifts && u.shifts[x].startTime.date == d {
        assert x in t.byDay[d];
      }
      forall x | x in u.shifts ensures x in DayIds(u.byDay, u.shifts[x].startTime.date) {
        assert x in DayIds(t.byDay, t.shifts[x].startTime.date);
      }
    }
  }

  /** No stored shift of the same job on the same day overlaps s. */
  ghost predicate Clear(t: Tables, s: Shift)
  {
    forall k :: (k in t.shifts && t.shifts[k].startTime.date == s.startTime.date && t.shifts[k].jobName == s.jobName)
      ==> !Meets(t.shifts[k], s)
  }

  /** Storing a valid shift under its own fresh non-zero id keeps the tables consistent; with no rival, free of overlaps. */
  lemma StoredKeeps(t: Tables, syncs: seq<Payload>, s: Shift)
    requires Consistent(t) && ValidShift(s) && s.id !in t.shifts && s.id != 0
    ensures Consistent(Stored(t, syncs, s).tables)
  {
    var u := Stored(t, syncs, s).tables;
    var d0 := s.startTime.date;
    forall d, x | d in u.byDay && x in u.byDay[d] ensures x in u.shifts && u.shifts[x].startTime.date == d {
      if x != s.id {
        assert x in t.byDay[d];
      }
    }
    forall x | x in u.shifts ensures x in DayIds(u.byDay, u.shifts[x].startTime.date) {
      if x != s.id {
        assert x in DayIds(t.byDay, t.shifts[x].startTime.date);
      }
    }
  }

  /** Storing a shift that no stored shift of its job and day meets keeps the tables free of overlaps. */
  lemma StoredKeepsDisjoint(t: Tables, syncs: seq<Payload>, s: Shift)
    requires Disjoint(t) && Clear(t, s) && s.id !in t.shifts
    ensures Disjoint(Stored(t, syncs, s).tables)
  {
    var u := Stored(t, syncs, s).tables;
    forall a, b | a in u.shifts && b in u.shifts && a != b &&
                  u.shifts[a].startTime.date == u.shifts[b].startTime.date && u.shifts[a].jobName == u.shifts[b].jobName
      ensures !Meets(u.shifts[a], u.shifts[b])
    {
      if a == s.id {
        MeetsSymmetric(u.shifts[a], u.shifts[b]);
      }
    }
  }

  /**
   * On consistent tables, for a valid shift and while identities do not wrap:
   * the insertion succeeds exactly when the shift, under the id it is checked
   * with, has no rival and an edited shift exists; a failure changes nothing;
   * a success stores the shift under its id, a fresh non-zero one for a new shift.
   */
  lemma InsertShiftOutcome(t: Tables, shift: Shift, editing: bool)
    requires Consistent(t) && ValidShift(shift) && U64_MAX !in t.shifts
    ensures var st := InsertShift(t, shift, editing);
            var probe := Probe(shift, editing);
            (st.result.Ok? <==> Rivals(t, probe) == {} && (editing ==> shift.id in t.shifts)) &&
            (st.result.Fail? ==>
               st.tables == t && st.syncs == [] &&
               st.result.error == InvalidArgument(if Rivals(t, probe) != {} then CollidesMsg else ShiftMissingMsg))
    ensures var st := InsertShift(t, shift, editing);
            st.result.Ok? ==>
              var s := st.result.value;
              st.tables.shifts == t.shifts[s.id := s] &&
              (editing ==> st.syncs == [RemovedShift(s.id), ChangedShift(s)]) &&
              (!editing ==> s.id !in t.shifts && s.id != 0 && st.syncs == [ChangedShift(s)])
  {
    VerifyShiftMeaning(t, Probe(shift, editing));
  }

  /** Inserting or editing a valid shift keeps the tables consistent. */
  lemma InsertShiftKeeps(t: Tables, shift: Shift, editing: bool)
    requires Consistent(t) && ValidShift(shift) && U64_MAX !in t.shifts
    ensures Consistent(InsertShift(t, shift, editing).tables)
  {
    var probe := Probe(shift, editing);
    VerifyShiftMeaning(t, probe);
    if Rivals(t, probe) == {} {
      if editing {
        if shift.id in t.shifts {
          DeleteShiftKeeps(t, shift.id);
          StoredKeeps(DeleteShift(t, shift.id).tables, [RemovedShift(shift.id)], shift);
        }
      } else {
        StoredKeeps(t, [], probe.(id := NewIdentityId(t.shifts)));
      }
    }
  }

  /** A shift with no rival, under any id, is clear of the tables that keep only the other stored shifts. */
  lemma NoRivalIsClear(t: Tables, u: Tables, probe: Shift, s: Shift)
    requires Rivals(t, probe) == {} && s == probe.(id := s.id)
    requires forall k :: k in u.shifts ==> k in t.shifts && k != probe.id && u.shifts[k] == t.shifts[k]
    ensures Clear(u, s)
  {
    forall k | k in u.shifts && u.shifts[k].startTime.date == s.startTime.date && u.shifts[k].jobName == s.jobName
      ensures !Meets(u.shifts[k], s)
    {
      assert k !in Rivals(t, probe);
    }
  }

  /** A shift stored by an insertion or an edit meets no other shift of its job and day. */
  lemma InsertShiftKeepsDisjoint(t: Tables, shift: Shift, editing: bool)
    requires Consistent(t) && Disjoint(t) && ValidShift(shift) && U64_MAX !in t.shifts
    ensures Disjoint(InsertShift(t, shift, editing).tables)
  {
    var probe := Probe(shift, editing);
    VerifyShiftMeaning(t, probe);
    if Rivals(t, probe) == {} {
      if editing {
        if shift.id in t.shifts {
          var u := DeleteShift(t, shift.id).tables;
          NoRivalIsClear(t, u, probe, shift);
          DeleteShiftKeeps(t, shift.id);
          StoredKeepsDisjoint(u, [RemovedShift(shift.id)], shift);
        }
      } else {
        var s := probe.(id := NewIdentityId(t.shifts));
        NoRivalIsClear(t, t, probe, s);
        StoredKeepsDisjoint(t, [], s);
      }
    }
  }

  /** Removing a worker keeps the tables consistent, and no shift is left assigned to it. */
  lemma DeleteWorkerKeeps(t: Tables, w: U64)
    requires Consistent(t)
    ensures Consistent(DeleteWorker(t, w).tables)
    ensures var u := DeleteWorker(t, w).tables;
            DeleteWorker(t, w).result && w != 0 ==> forall k :: k in u.shifts ==> u.shifts[k].workerId != w
  {
    var u := DeleteWorker(t, w).tables;
    if w in t.workers {
      forall d, x | d in u.byDay && x in u.byDay[d] ensures x in u.shifts && u.shifts[x].startTime.date == d {
        assert x in t.byDay[d];
      }
      forall x | x in u.shifts ensures x in DayIds(u.byDay, u.shifts[x].startTime.date) {
        assert x in DayIds(t.byDay, t.shifts[x].startTime.date);
      }
    }
  }

  /** Unassigning shifts moves none of them, so removing a worker keeps the tables free of overlaps. */
  lemma DeleteWorkerKeepsDisjoint(t: Tables, w: U64)
    requires Disjoint(t)
    ensures Disjoint(DeleteWorker(t, w).tables)
  {
    var u := DeleteWorker(t, w).tables;
    if w in t.workers {
      forall a, b | a in u.shifts && b in u.shifts && a != b &&
                    u.shifts[a].startTime.date == u.shifts[b].startTime.date && u.shifts[a].jobName == u.shifts[b].jobName
        ensures !Meets(u.shifts[a], u.shifts[b])
      {
        assert !Meets(t.shifts[a], t.shifts[b]);
      }
    }
  }

  /** Inserting or editing a worker keeps the tables consistent; a new worker gets a fresh non-zero id. */
  lemma InsertWorkerKeeps(t: Tables, worker: ShiftWorker, editing: bool)
    requires Consistent(t) && U64_MAX !in t.workers
    ensures Consistent(InsertWorker(t, worker, editing).tables)
    ensures var st := InsertWorker(t, worker, editing);
            st.result.Ok? && !editing ==> st.result.value.id !in t.workers && st.result.value.id != 0
  {
    var st := InsertWorker(t, worker, editing);
    if st.result.Ok? {
      var w := st.result.value;
      assert w.id != 0;
      WorkerStoredKeeps(t, w);
    }
  }

  /** Storing a worker under its own non-zero id keeps the tables consistent. */
  lemma WorkerStoredKeeps(t: Tables, w: ShiftWorker)
    requires Consistent(t) && w.id != 0
    ensures Consistent(t.(workers := t.workers[w.id := w]))
  {
    var u := t.(workers := t.workers[w.id := w]);
    assert Indexed(u);
    forall id | id in u.workers ensures u.workers[id].id == id {
      if id != w.id {
        assert u.workers[id] == t.workers[id];
      }
    }
  }

  // ------------------------------------------------------------- snapshot

  /** The key and value writes of each entry, for the keys in the order given. */
  function PairOps<K, V>(keys: seq<K>, m: map<K, V>, kenc: K -> seq<WriteOp>, venc: V -> seq<WriteOp>): seq<WriteOp>
    requires forall k :: k in keys ==> k in m
  {
    if keys == [] then [] else kenc(keys[0]) + venc(m[keys[0]]) + PairOps(keys[1..], m, kenc, venc)
  }

  /** The keys of a map in the order its iteration visits them, ascending under lt. */
  function KeyOrder<K(!new), V>(m: map<K, V>, lt: (K, K) -> bool): (keys: seq<K>)
    requires StrictTotal(lt)
    ensures |keys| == |m| && forall k :: k in keys <==> k in m
  {
    assert |m.Keys| == |m|;
    Sorted(m.Keys, lt)
  }

  /** One map of `serialize`: a `size_t` count, then every key and value in ascending key order. */
  function MapOps<K(!new), V>(m: map<K, V>, lt: (K, K) -> bool, kenc: K -> seq<WriteOp>, venc: V -> seq<WriteOp>): seq<WriteOp>
    requires StrictTotal(lt)
  {
    [Checked(LE(|m|, SIZE_T))] + PairOps(KeyOrder(m, lt), m, kenc, venc)
  }

  /** The read loop of `deserialize`: count pairs, each assigning `map[key] = value`, a repeated key overwriting. */
  function ParsePairs<K, V>(r: Reader, count: nat, kdec: Reader -> Decoded<K>, vdec: Reader -> Decoded<V>,
                            acc: map<K, V>): (o: Decoded<map<K, V>>)
    ensures o.Done? ==> acc.Keys <= o.value.Keys
    decreases count
  {
    if count == 0 then Done(acc, r)
    else
      var k :- kdec(r);
      var v :- vdec(k.1);
      ParsePairs(v.1, count - 1, kdec, vdec, acc[k.0 := v.0])
  }

  /** One map of `deserialize`: the map was cleared, then the count and the pairs. */
  function ParseMap<K, V>(r: Reader, kdec: Reader -> Decoded<K>, vdec: Reader -> Decoded<V>): (o: Decoded<map<K, V>>)
    ensures !r.good ==> o == Threw(RuntimeError(BadStream), r)
  {
    var n :- ReadUInt(r, SIZE_T);
    ParsePairs(n.1, n.0, kdec, vdec, map[])
  }

  lemma ParsePairsStep<K, V>(r: Reader, count: nat, kdec: Reader -> Decoded<K>, vdec: Reader -> Decoded<V>,
                             acc: map<K, V>, k: K, r1: Reader, v: V, r2: Reader)
    requires count > 0 && kdec(r) == Done(k, r1) && vdec(r1) == Done(v, r2)
    ensures ParsePairs(r, count, kdec, vdec, acc) == ParsePairs(r2, count - 1, kdec, vdec, acc[k := v])
  {
  }

  /** The pairs written for keys, read back into acc, add exactly those keys with their values. */
  lemma {:induction false} PairsRoundTrip<K, V>(keys: seq<K>, m: map<K, V>, kenc: K -> seq<WriteOp>, venc: V -> seq<WriteOp>,
                                                kdec: Reader -> Decoded<K>, vdec: Reader -> Decoded<V>,
                                                acc: map<K, V>, tail: seq<byte>)
    requires forall k :: k in keys ==> k in m && Inverts(kenc, kdec, k) && Inverts(venc, vdec, m[k])
    ensures ParsePairs(Reader(Flatten(PairOps(keys, m, kenc, venc)) + tail, true), |keys|, kdec, vdec, acc)
         == Done(acc + (map k | k in keys :: m[k]), Reader(tail, true))
  {
    if keys == [] {
      NoPairs(keys, m, acc);
      assert Flatten(PairOps(keys, m, kenc, venc)) + tail == tail;
    } else {
      var k := keys[0];
      var more := PairOps(keys[1..], m, kenc, venc);
      var rest := Flatten(more) + tail;
      var r2 := Flatten(venc(m[k])) + rest;
      FlattenThen(kenc(k) + venc(m[k]), more, tail);
      FlattenThen(kenc(k), venc(m[k]), rest);
      assert Inverts(kenc, kdec, k) && Inverts(venc, vdec, m[k]);
      assert kdec(Reader(Flatten(kenc(k)) + r2, true)) == Done(k, Reader(r2, true));
      assert vdec(Reader(r2, true)) == Done(m[k], Reader(rest, true));
      ParsePairsStep(Reader(Flatten(PairOps(keys, m, kenc, venc)) + tail, true), |keys|, kdec, vdec, acc,
                     k, Reader(r2, true), m[k], Reader(rest, true));
      PairsRoundTrip(keys[1..], m, kenc, venc, kdec, vdec, acc[k := m[k]], tail);
      AddPair(keys, m, acc);
    }
  }

  /** No keys add nothing. */
  lemma NoPairs<K, V>(keys: seq<K>, m: map<K, V>, acc: map<K, V>)
    requires forall k :: k in keys ==> k in m
    ensures keys == [] ==> acc + (map k | k in keys :: m[k]) == acc
  {
  }

  lemma AddPair<K, V>(keys: seq<K>, m: map<K, V>, acc: map<K, V>)
    requires |keys| > 0 && forall k :: k in keys ==> k in m
    ensures acc[keys[0] := m[keys[0]]] + (map j | j in keys[1..] :: m[j]) == acc + (map j | j in keys :: m[j])
  {
    assert forall j :: j in keys <==> j == keys[0] || j in keys[1..];
  }

  /** A map is rebuilt from any enumeration of its keys. */
  lemma MapOfKeys<K, V>(keys: seq<K>, m: map<K, V>)
    requires forall k :: k in keys <==> k in m
    ensures map[] + (map k | k in keys :: m[k]) == m
  {
  }

  /** A map whose size fits a `size_t` and whose keys and values each read back is read back whole. */
  lemma MapRoundTrip<K(!new), V>(m: map<K, V>, lt: (K, K) -> bool, kenc: K -> seq<WriteOp>, venc: V -> seq<WriteOp>,
                                 kdec: Reader -> Decoded<K>, vdec: Reader -> Decoded<V>, tail: seq<byte>)
    requires StrictTotal(lt) && |m| < Pow256(SIZE_T)
    requires forall k :: k in m ==> Inverts(kenc, kdec, k) && Inverts(venc, vdec, m[k])
    ensures ParseMap(Reader(Flatten(MapOps(m, lt, kenc, venc)) + tail, true), kdec, vdec) == Done(m, Reader(tail, true))
  {
    var keys := KeyOrder(m, lt);
    var rest := Flatten(PairOps(keys, m, kenc, venc)) + tail;
    FlattenThen([Checked(LE(|m|, SIZE_T))], PairOps(keys, m, kenc, venc), tail);
    assert Flatten([Checked(LE(|m|, SIZE_T))]) == LE(|m|, SIZE_T);
    ReadUIntRoundTrip(|m|, SIZE_T, rest);
    PairsRoundTrip(keys, m, kenc, venc, kdec, vdec, map[], tail);
    MapOfKeys(keys, m);
  }

  /** A day key is written by `Date::serialize` with the tag of `Date`. */
  function DayOps(d: Date): seq<WriteOp> { DateOps(d, TagDate) }

  /** `std::string::operator<`: bytes compared as unsigned characters, a prefix first. */
  function TokenLess(a: ByteString, b: ByteString): bool { SeqLess(a, b) }

  lemma TokenLessTotal()
    ensures StrictTotal(TokenLess)
  {
    SeqLessTotal();
    forall a: ByteString, b: ByteString, c: ByteString | TokenLess(a, b) && TokenLess(b, c) ensures TokenLess(a, c) {
      SeqLessTransitive(a, b, c);
    }
    forall a: ByteString, b: ByteString | a != b ensures TokenLess(a, b) || TokenLess(b, a) {
      SeqLessConnected(a, b);
    }
  }

  function ShiftTableOps(m: map<U64, Shift>): seq<WriteOp>
  {
    U64LessTotal();
    MapOps(m, U64Less, U64Ops, ShiftOps)
  }

  /** Each day's ids are written by `write_set_primitive`. */
  function DayTableOps(m: map<Date, set<U64>>): seq<WriteOp>
  {
    DateLessTotal();
    MapOps(m, DateLess, DayOps, SetPrimitiveOps)
  }

  function StaffTableOps(m: map<U64, ShiftWorker>): seq<WriteOp>
  {
    U64LessTotal();
    MapOps(m, U64Less, U64Ops, WorkerOps)
  }

  /** Each token by `write_string`, its permissions as their 16-bit value. */
  function TokenTableOps(m: map<ByteString, U16>): seq<WriteOp>
  {
    TokenLessTotal();
    MapOps(m, TokenLess, StrOps, U16Ops)
  }

  /** `RestaurantManager::serialize`: the tag, then the four maps in declaration order. */
  function TablesOps(t: Tables): seq<WriteOp>
  {
    TagOps(TagRestaurantManager) + ShiftTableOps(t.shifts) + DayTableOps(t.byDay)
    + StaffTableOps(t.workers) + TokenTableOps(t.tokens)
  }

  /** `RestaurantManager::deserialize`: the tag check, then the four maps, each rebuilt from nothing. */
  function DecodeTables(r: Reader): (o: Decoded<Tables>)
    ensures !r.good ==> o == Threw(RuntimeError(BadStream), r)
  {
    var tag :- CheckTag(TagRestaurantManager, r);
    DecodeTablesBody(tag.1)
  }

  /** The four maps after the tag. */
  function DecodeTablesBody(r: Reader): Decoded<Tables>
  {
    var a :- ParseMap(r, ReadU64, DecodeNestedShift);
    var b :- ParseMap(a.1, DecodeNestedDate, ParseSetPrimitive);
    var c :- ParseMap(b.1, ReadU64, DecodeNestedWorker);
    var d :- ParseMap(c.1, ReadStr, ReadU16);
    Done(Tables(a.0, b.0, c.0, d.0), d.1)
  }

  /** Tables a snapshot can carry: every count fits a `size_t`, every shift and every day is valid. */
  ghost predicate Encodable(t: Tables)
  {
    |t.shifts| < Pow256(SIZE_T) && |t.byDay| < Pow256(SIZE_T) &&
    |t.workers| < Pow256(SIZE_T) && |t.tokens| < Pow256(SIZE_T) &&
    (forall id :: id in t.shifts ==> ValidShift(t.shifts[id])) &&
    (forall d :: d in t.byDay ==> ValidDate(d) && |t.byDay[d]| < Pow256(SIZE_T))
  }

  lemma ShiftTableRoundTrip(m: map<U64, Shift>, tail: seq<byte>)
    requires |m| < Pow256(SIZE_T) && forall id :: id in m ==> ValidShift(m[id])
    ensures ParseMap(Reader(Flatten(ShiftTableOps(m)) + tail, true), ReadU64, DecodeNestedShift)
         == Done(m, Reader(tail, true))
  {
    U64LessTotal();
    forall k | k in m ensures Inverts(U64Ops, ReadU64, k) && Inverts(ShiftOps, DecodeNestedShift, m[k]) {
      forall tl ensures ReadU64(Reader(Flatten(U64Ops(k)) + tl, true)) == Done(k, Reader(tl, true)) {
        ReadU64RoundTrip(k, tl);
      }
      forall tl ensures DecodeNestedShift(Reader(Flatten(ShiftOps(m[k])) + tl, true)) == Done(m[k], Reader(tl, true)) {
        NestedShiftRoundTrip(m[k], tl);
      }
    }
    MapRoundTrip(m, U64Less, U64Ops, ShiftOps, ReadU64, DecodeNestedShift, tail);
  }

  lemma DayTableRoundTrip(m: map<Date, set<U64>>, tail: seq<byte>)
    requires |m| < Pow256(SIZE_T) && forall d :: d in m ==> ValidDate(d) && |m[d]| < Pow256(SIZE_T)
    ensures ParseMap(Reader(Flatten(DayTableOps(m)) + tail, true), DecodeNestedDate, ParseSetPrimitive)
         == Done(m, Reader(tail, true))
  {
    DateLessTotal();
    forall d | d in m ensures Inverts(DayOps, DecodeNestedDate, d) && Inverts(SetPrimitiveOps, ParseSetPrimitive, m[d]) {
      forall tl ensures DecodeNestedDate(Reader(Flatten(DayOps(d)) + tl, true)) == Done(d, Reader(tl, true)) {
        NestedDateRoundTrip(d, tl);
      }
      forall tl ensures ParseSetPrimitive(Reader(Flatten(SetPrimitiveOps(m[d])) + tl, true)) == Done(m[d], Reader(tl, true)) {
        SetPrimitiveRoundTrip(m[d], tl);
      }
    }
    MapRoundTrip(m, DateLess, DayOps, SetPrimitiveOps, DecodeNestedDate, ParseSetPrimitive, tail);
  }

  lemma StaffTableRoundTrip(m: map<U64, ShiftWorker>, tail: seq<byte>)
    requires |m| < Pow256(SIZE_T)
    ensures ParseMap(Reader(Flatten(StaffTableOps(m)) + tail, true), ReadU64, DecodeNestedWorker)
         == Done(m, Reader(tail, true))
  {
    U64LessTotal();
    forall k | k in m ensures Inverts(U64Ops, ReadU64, k) && Inverts(WorkerOps, DecodeNestedWorker, m[k]) {
      forall tl ensures ReadU64(Reader(Flatten(U64Ops(k)) + tl, true)) == Done(k, Reader(tl, true)) {
        ReadU64RoundTrip(k, tl);
      }
      forall tl ensures DecodeNestedWorker(Reader(Flatten(WorkerOps(m[k])) + tl, true)) == Done(m[k], Reader(tl, true)) {
        NestedWorkerRoundTrip(m[k], tl);
      }
    }
    MapRoundTrip(m, U64Less, U64Ops, WorkerOps, ReadU64, DecodeNestedWorker, tail);
  }

  lemma TokenTableRoundTrip(m: map<ByteString, U16>, tail: seq<byte>)
    requires |m| < Pow256(SIZE_T)
    ensures ParseMap(Reader(Flatten(TokenTableOps(m)) + tail, true), ReadStr, ReadU16)
         == Done(m, Reader(tail, true))
  {
    TokenLessTotal();
    forall k | k in m ensures Inverts(StrOps, ReadStr, k) && Inverts(U16Ops, ReadU16, m[k]) {
      forall tl ensures ReadStr(Reader(Flatten(StrOps(k)) + tl, true)) == Done(k, Reader(tl, true)) {
        StrRoundTrip(k, tl);
      }
      forall tl ensures ReadU16(Reader(Flatten(U16Ops(m[k])) + tl, true)) == Done(m[k], Reader(tl, true)) {
        U16RoundTrip(m[k], tl);
      }
    }
    MapRoundTrip(m, TokenLess, StrOps, U16Ops, ReadStr, ReadU16, tail);
  }

  /** Each stage of `deserialize` reads back what the matching stage of `serialize` wrote. */
  lemma TablesStages(t: Tables, tail: seq<byte>)
    requires Encodable(t)
    ensures var r4 := Flatten(TokenTableOps(t.tokens)) + tail;
            var r3 := Flatten(StaffTableOps(t.workers)) + r4;
            var r2 := Flatten(DayTableOps(t.byDay)) + r3;
            var r1 := Flatten(ShiftTableOps(t.shifts)) + r2;
            CheckTag(TagRestaurantManager, Reader(Flatten(TablesOps(t)) + tail, true)) == Done(TagRestaurantManager, Reader(r1, true)) &&
            ParseMap(Reader(r1, true), ReadU64, DecodeNestedShift) == Done(t.shifts, Reader(r2, true)) &&
            ParseMap(Reader(r2, true), DecodeNestedDate, ParseSetPrimitive) == Done(t.byDay, Reader(r3, true)) &&
            ParseMap(Reader(r3, true), ReadU64, DecodeNestedWorker) == Done(t.workers, Reader(r4, true)) &&
            ParseMap(Reader(r4, true), ReadStr, ReadU16) == Done(t.tokens, Reader(tail, true))
  {
    var r4 := Flatten(TokenTableOps(t.tokens)) + tail;
    var r3 := Flatten(StaffTableOps(t.workers)) + r4;
    var r2 := Flatten(DayTableOps(t.byDay)) + r3;
    var r1 := Flatten(ShiftTableOps(t.shifts)) + r2;
    TablesBytes(t, tail);
    TagRoundTrip(TagRestaurantManager, TagRestaurantManager, r1);
    ShiftTableRoundTrip(t.shifts, r2);
    DayTableRoundTrip(t.byDay, r3);
    StaffTableRoundTrip(t.workers, r4);
    TokenTableRoundTrip(t.tokens, tail);
  }

  /** Every encodable set of tables survives `serialize` followed by `deserialize`, whatever follows it. */
  lemma TablesRoundTrip(t: Tables, tail: seq<byte>)
    requires Encodable(t)
    ensures DecodeTables(Reader(Flatten(TablesOps(t)) + tail, true)) == Done(t, Reader(tail, true))
  {
    var r4 := Flatten(TokenTableOps(t.tokens)) + tail;
    var r3 := Flatten(StaffTableOps(t.workers)) + r4;
    var r2 := Flatten(DayTableOps(t.byDay)) + r3;
    var r1 := Flatten(ShiftTableOps(t.shifts)) + r2;
    TablesStages(t, tail);
    DecodeTablesSteps(Reader(Flatten(TablesOps(t)) + tail, true), Reader(r1, true), Reader(r2, true),
                      Reader(r3, true), Reader(r4, true), Reader(tail, true), t);
  }

  /** The bytes of `serialize`: the tag, then each map in turn. */
  lemma TablesBytes(t: Tables, tail: seq<byte>)
    ensures Flatten(TablesOps(t)) + tail
         == Flatten(TagOps(TagRestaurantManager)) + (Flatten(ShiftTableOps(t.shifts)) + (Flatten(DayTableOps(t.byDay))
            + (Flatten(StaffTableOps(t.workers)) + (Flatten(TokenTableOps(t.tokens)) + tail))))
  {
    var r4 := Flatten(TokenTableOps(t.tokens)) + tail;
    var r3 := Flatten(StaffTableOps(t.workers)) + r4;
    var r2 := Flatten(DayTableOps(t.byDay)) + r3;
    var p1 := TagOps(TagRestaurantManager);
    var p2 := p1 + ShiftTableOps(t.shifts);
    var p3 := p2 + DayTableOps(t.byDay);
    var p4 := p3 + StaffTableOps(t.workers);
    FlattenThen(p4, TokenTableOps(t.tokens), tail);
    FlattenThen(p3, StaffTableOps(t.workers), r4);
    FlattenThen(p2, DayTableOps(t.byDay), r3);
    FlattenThen(p1, ShiftTableOps(t.shifts), r2);
  }

  /** `deserialize` reads its tag and then each map from where the previous one ended. */
  lemma DecodeTablesSteps(r: Reader, r1: Reader, r2: Reader, r3: Reader, r4: Reader, r5: Reader, t: Tables)
    requires CheckTag(TagRestaurantManager, r) == Done(TagRestaurantManager, r1)
    requires ParseMap(r1, ReadU64, DecodeNestedShift) == Done(t.shifts, r2)
    requires ParseMap(r2, DecodeNestedDate, ParseSetPrimitive) == Done(t.byDay, r3)
    requires ParseMap(r3, ReadU64, DecodeNestedWorker) == Done(t.workers, r4)
    requires ParseMap(r4, ReadStr, ReadU16) == Done(t.tokens, r5)
    ensures DecodeTables(r) == Done(t, r5)
  {
  }

  /**
   * What one read loop of `deserialize` leaves behind: the entries stored
   * before it stopped, and how it stopped.  An entry is stored only once its
   * key and its value have both been read.
   */
  function PairsRead<K, V>(r: Reader, count: nat, kdec: Reader -> Decoded<K>, vdec: Reader -> Decoded<V>,
                           acc: map<K, V>): (res: (map<K, V>, Decoded<map<K, V>>))
    ensures res.1 == ParsePairs(r, count, kdec, vdec, acc)
    ensures res.1.Done? ==> res.0 == res.1.value
    decreases count
  {
    if count == 0 then (acc, Done(acc, r))
    else match kdec(r)
      case Threw(e, s) => (acc, Threw(e, s))
      case Done(k, r1) =>
        match vdec(r1)
        case Threw(e, s) => (acc, Threw(e, s))
        case Done(v, r2) => PairsRead(r2, count - 1, kdec, vdec, acc[k := v])
  }

  /** A count-prefixed read loop of `deserialize`, into a map just cleared. */
  function MapRead<K, V>(r: Reader, kdec: Reader -> Decoded<K>, vdec: Reader -> Decoded<V>): (res: (map<K, V>, Decoded<map<K, V>>))
    ensures res.1 == ParseMap(r, kdec, vdec)
    ensures res.1.Done? ==> res.0 == res.1.value
  {
    match ReadUInt(r, SIZE_T)
    case Threw(e, s) => (map[], Threw(e, s))
    case Done(n, r1) => PairsRead(r1, n, kdec, vdec, map[])
  }

  /**
   * `deserialize` applied to tables `t`: a wrong tag leaves them alone;
   * otherwise the four maps are cleared and refilled in order, and a failure
   * leaves what was read before it.
   */
  function Loaded(t: Tables, r: Reader): (res: (Tables, Outcome<(), Reader>))
    ensures res.1.Done? <==> DecodeTables(r).Done?
    ensures res.1.Done? ==> res.0 == DecodeTables(r).value && res.1.state == DecodeTables(r).state
    ensures res.1.Threw? ==> res.1 == Threw(DecodeTables(r).error, DecodeTables(r).state)
    ensures CheckTag(TagRestaurantManager, r).Threw? ==> res.0 == t
  {
    match CheckTag(TagRestaurantManager, r)
    case Threw(e, s) => (t, Threw(e, s))
    case Done(_, r0) => LoadedBody(r0)
  }

  /** The four maps of `deserialize`, cleared and refilled in order from r; a failure leaves what was read before it. */
  function LoadedBody(r: Reader): (res: (Tables, Outcome<(), Reader>))
    ensures res.1.Done? <==> DecodeTablesBody(r).Done?
    ensures res.1.Done? ==> res.0 == DecodeTablesBody(r).value && res.1.state == DecodeTablesBody(r).state
    ensures res.1.Threw? ==> res.1 == Threw(DecodeTablesBody(r).error, DecodeTablesBody(r).state)
  {
    var a := MapRead(r, ReadU64, DecodeNestedShift);
    if a.1.Threw? then (EmptyTables.(shifts := a.0), Threw(a.1.error, a.1.state)) else
    var b := MapRead(a.1.state, DecodeNestedDate, ParseSetPrimitive);
    if b.1.Threw? then (Tables(a.0, b.0, map[], map[]), Threw(b.1.error, b.1.state)) else
    var c := MapRead(b.1.state, ReadU64, DecodeNestedWorker);
    if c.1.Threw? then (Tables(a.0, b.0, c.0, map[]), Threw(c.1.error, c.1.state)) else
    var d := MapRead(c.1.state, ReadStr, ReadU16);
    (Tables(a.0, b.0, c.0, d.0), if d.1.Threw? then Threw(d.1.error, d.1.state) else Done((), d.1.state))
  }

  /** Loading a snapshot of encodable tables, whatever the tables were before, restores them exactly. */
  lemma LoadSnapshot(before: Tables, t: Tables, tail: seq<byte>)
    requires Encodable(t)
    ensures Loaded(before, Reader(Flatten(TablesOps(t)) + tail, true)) == (t, Done((), Reader(tail, true)))
  {
    var r4 := Flatten(TokenTableOps(t.tokens)) + tail;
    var r3 := Flatten(StaffTableOps(t.workers)) + r4;
    var r2 := Flatten(DayTableOps(t.byDay)) + r3;
    var r1 := Flatten(ShiftTableOps(t.shifts)) + r2;
    TablesStages(t, tail);
    LoadedSteps(before, Reader(Flatten(TablesOps(t)) + tail, true), Reader(r1, true), Reader(r2, true),
                Reader(r3, true), Reader(r4, true), Reader(tail, true), t);
  }

  /** When every stage succeeds, the load ends with the four maps read. */
  lemma LoadedSteps(before: Tables, r: Reader, r1: Reader, r2: Reader, r3: Reader, r4: Reader, r5: Reader, t: Tables)
    requires CheckTag(TagRestaurantManager, r) == Done(TagRestaurantManager, r1)
    requires ParseMap(r1, ReadU64, DecodeNestedShift) == Done(t.shifts, r2)
    requires ParseMap(r2, DecodeNestedDate, ParseSetPrimitive) == Done(t.byDay, r3)
    requires ParseMap(r3, ReadU64, DecodeNestedWorker) == Done(t.workers, r4)
    requires ParseMap(r4, ReadStr, ReadU16) == Done(t.tokens, r5)
    ensures Loaded(before, r) == (t, Done((), r5))
  {
    assert MapRead(r1, ReadU64, DecodeNestedShift) == (t.shifts, Done(t.shifts, r2));
    assert MapRead(r2, DecodeNestedDate, ParseSetPrimitive) == (t.byDay, Done(t.byDay, r3));
    assert MapRead(r3, ReadU64, DecodeNestedWorker) == (t.workers, Done(t.workers, r4));
    assert MapRead(r4, ReadStr, ReadU16) == (t.tokens, Done(t.tokens, r5));
  }

  /** Consistent tables are encodable as soon as their counts fit a `size_t`. */
  lemma ConsistentIsEncodable(t: Tables)
    requires Consistent(t)
    requires |t.shifts| < Pow256(SIZE_T) && |t.byDay| < Pow256(SIZE_T)
    requires |t.workers| < Pow256(SIZE_T) && |t.tokens| < Pow256(SIZE_T)
    requires forall d :: d in t.byDay ==> |t.byDay[d]| < Pow256(SIZE_T)
    ensures Encodable(t)
  {
  }
}
