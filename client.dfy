/**
 * The client side (UIPizzaClient/RestaurantClient.h, UIPizzaClient/RestaurantClient.cpp):
 * a local cache of shifts, the day index over them and workers, kept up to date
 * by the replies and synchronisation packets the server sends, and the
 * requests the client writes.
 *
 * The cache operations are defined here on a `Cache` value; class
 * `RestaurantClient` applies them to its fields.  The central result is that a
 * client whose cache mirrors the server's tables keeps mirroring them once it
 * has applied the synchronisation packets of any answered request.
 */
module Client {
  import opened Wire
  import opened Errors
  import opened Binary
  import opened Ordering
  import opened Registry
  import opened Calendar
  import opened Schedule
  import opened Packets
  import opened Connections
  import Store
  import Manager
  import Permissions

  const NotFoundMsg: string := "Not Found"

  /** `_shifts`, `_shiftsByDay` and `_workers`. */
  datatype Cache = Cache(shifts: map<U64, Shift>, byDay: map<Date, set<U64>>, workers: map<U64, ShiftWorker>)

  const EmptyCache: Cache := Cache(map[], map[], map[])

  /** The key a shift is listed under: `getStartTime()` converted to its `Date` part. */
  function DayOf(s: Shift): Date
  {
    s.startTime.date
  }

  /** The cache seen as the server's tables (it holds no tokens), so both sides share one notion of a sound index. */
  function AsTables(c: Cache): Store.Tables
  {
    Store.Tables(c.shifts, c.byDay, c.workers, map[])
  }

  /** Every listed id is cached under its own day, and every cached shift is listed under its day. */
  ghost predicate Indexed(c: Cache)
  {
    Store.Indexed(AsTables(c))
  }

  // ------------------------------------------------------- cache operations

  /**
   * `deleteShift`: a cached id leaves the table and its day's list (through
   * `operator[]`, so the day keeps an entry, possibly empty); an unknown id
   * changes nothing.
   */
  function Dropped(c: Cache, id: U64): (r: Cache)
    ensures r.shifts == c.shifts - {id} && r.workers == c.workers
    ensures id !in c.shifts ==> r == c
  {
    if id !in c.shifts then c
    else
      var d := DayOf(c.shifts[id]);
      c.(shifts := c.shifts - {id}, byDay := c.byDay[d := Store.DayIds(c.byDay, d) - {id}])
  }

  /** `insertShift`: a cached shift with the same id is dropped first, then the shift is stored and listed under its day. */
  function Cached(c: Cache, s: Shift): (r: Cache)
    ensures r.shifts == c.shifts[s.id := s] && r.workers == c.workers
    ensures s.id in Store.DayIds(r.byDay, DayOf(s))
  {
    var c1 := if s.id in c.shifts then Dropped(c, s.id) else c;
    var d := DayOf(s);
    c1.(shifts := c1.shifts[s.id := s], byDay := c1.byDay[d := Store.DayIds(c1.byDay, d) + {s.id}])
  }

  /**
   * The success branch of `onDeleteWorker`: the worker is erased and every
   * shift assigned to it becomes unassigned, whether or not it was cached.
   */
  function Discharged(c: Cache, w: U64): (r: Cache)
    ensures r.workers == c.workers - {w} && r.byDay == c.byDay && r.shifts.Keys == c.shifts.Keys
    ensures forall k :: k in r.shifts ==> r.shifts[k] == c.shifts[k].(workerId := r.shifts[k].workerId) &&
                                           (r.shifts[k].workerId == w ==> w == 0)
    ensures forall k :: k in r.shifts ==>
              r.shifts[k].workerId == if c.shifts[k].workerId == w then 0 else c.shifts[k].workerId
  {
    c.(shifts := Store.Unassigned(c.shifts, w), workers := c.workers - {w})
  }

  /** `deleteWorker`: a cached worker is discharged; an unknown id changes nothing, its shifts included. */
  function Forgotten(c: Cache, w: U64): (r: Cache)
    ensures w in c.workers ==> r == Discharged(c, w)
    ensures w !in c.workers ==> r == c
  {
    if w !in c.workers then c else Discharged(c, w)
  }

  /** `_workers[w.getId()] = w`. */
  function Enrolled(c: Cache, w: ShiftWorker): Cache
  {
    c.(workers := c.workers[w.id := w])
  }

  /** `f` applied to each element in turn, first to last: a range-for over a container. */
  function Apply<T>(c: Cache, xs: seq<T>, f: (Cache, T) -> Cache): Cache
    decreases |xs|
  {
    if xs == [] then c else f(Apply(c, xs[..|xs| - 1], f), xs[|xs| - 1])
  }

  /**
   * `onSync`: removed shifts, then removed workers, then changed workers,
   * then changed shifts, each set in ascending order.
   */
  function Synced(c: Cache, p: Payload): Cache
    requires p.ClientSync?
  {
    U64LessTotal();
    WorkerLessTotal();
    ShiftLessTotal();
    var c1 := Apply(c, Sorted(p.removedShifts, U64Less), Dropped);
    var c2 := Apply(c1, Sorted(p.removedWorkers, U64Less), Forgotten);
    var c3 := Apply(c2, Sorted(p.changedWorkers, WorkerLess), Enrolled);
    Apply(c3, Sorted(p.changedShifts, ShiftLess), Cached)
  }

  /** Synchronisation packets handled in the order they arrive. */
  function Replayed(c: Cache, ps: seq<Payload>): Cache
    requires forall i :: 0 <= i < |ps| ==> ps[i].ClientSync?
    decreases |ps|
  {
    if ps == [] then c else Synced(Replayed(c, ps[..|ps| - 1]), ps[|ps| - 1])
  }

  /** `getShift`: the cached shift, or `invalid_argument("Not Found")`. */
  function ShiftAt(c: Cache, id: U64): (r: Result<Shift>)
    ensures r.Ok? <==> id in c.shifts
    ensures r.Ok? ==> r.value == c.shifts[id]
    ensures r.Fail? ==> r.error == InvalidArgument(NotFoundMsg)
  {
    if id !in c.shifts then Fail(InvalidArgument(NotFoundMsg)) else Ok(c.shifts[id])
  }

  /** `getWorker`: the cached worker, or `invalid_argument("Not Found")`. */
  function WorkerAt(c: Cache, id: U64): (r: Result<ShiftWorker>)
    ensures r.Ok? <==> id in c.workers
    ensures r.Ok? ==> r.value == c.workers[id]
    ensures r.Fail? ==> r.error == InvalidArgument(NotFoundMsg)
  {
    if id !in c.workers then Fail(InvalidArgument(NotFoundMsg)) else Ok(c.workers[id])
  }

  /**
   * `getShifts(day)`: the shifts of the ids listed for the day; a listed id
   * that is not cached makes `getShift` throw.
   */
  function DayShifts(c: Cache, d: Date): (r: Result<set<Shift>>)
    ensures r.Ok? <==> Store.DayIds(c.byDay, d) <= c.shifts.Keys
    ensures r.Ok? ==> forall s :: s in r.value <==> exists id :: id in Store.DayIds(c.byDay, d) && c.shifts[id] == s
    ensures r.Fail? ==> r.error == InvalidArgument(NotFoundMsg)
  {
    if d !in c.byDay then Ok({})
    else if c.byDay[d] <= c.shifts.Keys then Ok(set id | id in c.byDay[d] :: c.shifts[id])
    else Fail(InvalidArgument(NotFoundMsg))
  }

  // ------------------------------------------------------------ their meaning

  /** Dropping keeps a sound index, and removes the id from every day's list. */
  lemma DroppedKeeps(c: Cache, id: U64)
    requires Indexed(c)
    ensures Indexed(Dropped(c, id))
    ensures forall d :: Store.DayIds(Dropped(c, id).byDay, d) == Store.DayIds(c.byDay, d) - {id}
  {
    if id in c.shifts {
      var r := Dropped(c, id);
      forall d ensures Store.DayIds(r.byDay, d) == Store.DayIds(c.byDay, d) - {id} {
        if d != DayOf(c.shifts[id]) && id in Store.DayIds(c.byDay, d) {
          assert false;
        }
      }
    } else {
      forall d ensures Store.DayIds(c.byDay, d) - {id} == Store.DayIds(c.byDay, d) {
        assert id !in Store.DayIds(c.byDay, d);
      }
    }
  }

  /** Dropping twice is dropping once. */
  lemma DroppedTwice(c: Cache, id: U64)
    ensures Dropped(Dropped(c, id), id) == Dropped(c, id)
  {
  }

  /** Caching lists the shift under its own day only: every other list loses its id. */
  lemma CachedLists(c: Cache, s: Shift)
    requires Indexed(c)
    ensures forall d :: Store.DayIds(Cached(c, s).byDay, d) ==
                        (Store.DayIds(c.byDay, d) - {s.id}) + (if d == DayOf(s) then {s.id} else {})
  {
    var c1 := if s.id in c.shifts then Dropped(c, s.id) else c;
    DroppedKeeps(c, s.id);
    assert forall d :: Store.DayIds(c1.byDay, d) == Store.DayIds(c.byDay, d) - {s.id};
  }

  /** Caching keeps a sound index. */
  lemma CachedKeeps(c: Cache, s: Shift)
    requires Indexed(c)
    ensures Indexed(Cached(c, s))
  {
    CachedLists(c, s);
  }

  /** Caching the same shift again changes nothing. */
  lemma CachedTwice(c: Cache, s: Shift)
    ensures Cached(Cached(c, s), s) == Cached(c, s)
  {
    var r := Cached(c, s);
    var d := DayOf(s);
    assert Store.DayIds(Dropped(r, s.id).byDay, d) + {s.id} == Store.DayIds(r.byDay, d);
  }

  /** Discharging a worker keeps a sound index: shifts keep their days. */
  lemma DischargedKeeps(c: Cache, w: U64)
    requires Indexed(c)
    ensures Indexed(Discharged(c, w))
  {
  }

  /** `f` applied in turn keeps whatever invariant each application keeps. */
  lemma {:induction false} ApplyKeeps<T>(c: Cache, xs: seq<T>, f: (Cache, T) -> Cache)
    requires Indexed(c)
    requires forall c', x :: Indexed(c') ==> Indexed(f(c', x))
    ensures Indexed(Apply(c, xs, f))
    decreases |xs|
  {
    if xs != [] {
      ApplyKeeps(c, xs[..|xs| - 1], f);
    }
  }

  /** Every synchronisation packet keeps a sound index. */
  lemma SyncedKeeps(c: Cache, p: Payload)
    requires Indexed(c) && p.ClientSync?
    ensures Indexed(Synced(c, p))
  {
    forall c', id: U64 | Indexed(c') ensures Indexed(Dropped(c', id)) {
      DroppedKeeps(c', id);
    }
    forall c', w: U64 | Indexed(c') ensures Indexed(Forgotten(c', w)) {
      DischargedKeeps(c', w);
    }
    forall c', s: Shift | Indexed(c') ensures Indexed(Cached(c', s)) {
      CachedKeeps(c', s);
    }
    U64LessTotal();
    WorkerLessTotal();
    ShiftLessTotal();
    var c1 := Apply(c, Sorted(p.removedShifts, U64Less), Dropped);
    ApplyKeeps(c, Sorted(p.removedShifts, U64Less), Dropped);
    var c2 := Apply(c1, Sorted(p.removedWorkers, U64Less), Forgotten);
    ApplyKeeps(c1, Sorted(p.removedWorkers, U64Less), Forgotten);
    var c3 := Apply(c2, Sorted(p.changedWorkers, WorkerLess), Enrolled);
    ApplyKeeps(c2, Sorted(p.changedWorkers, WorkerLess), Enrolled);
    ApplyKeeps(c3, Sorted(p.changedShifts, ShiftLess), Cached);
  }

  /** On a sound index `getShifts(day)` never throws and yields exactly the cached shifts starting that day. */
  lemma DayShiftsMeaning(c: Cache, d: Date)
    requires Indexed(c)
    ensures DayShifts(c, d).Ok?
    ensures forall s :: s in DayShifts(c, d).value <==> s in c.shifts.Values && DayOf(s) == d
  {
    assert Store.DayIds(c.byDay, d) <= c.shifts.Keys;
    forall s | s in c.shifts.Values && DayOf(s) == d ensures s in DayShifts(c, d).value {
      var k :| k in c.shifts && c.shifts[k] == s;
      assert k in Store.DayIds(c.byDay, DayOf(c.shifts[k]));
    }
  }

  // ------------------------------------------------------ following the server

  /** The cache holds what the server's tables hold: the same shifts, the same workers, the same list for every day. */
  ghost predicate Mirrors(c: Cache, t: Store.Tables)
  {
    c.shifts == t.shifts && c.workers == t.workers && forall d :: Store.DayIds(c.byDay, d) == Store.DayIds(t.byDay, d)
  }

  lemma SortedSmall<T(!new)>(x: T, lt: (T, T) -> bool)
    requires StrictTotal(lt)
    ensures Sorted({}, lt) == [] && Sorted({x}, lt) == [x]
  {
    var xs := Sorted({x}, lt);
    assert |xs| == 1 && x in xs;
  }

  /**
   * The client follows a step of the server: every packet the step broadcast
   * is a synchronisation packet, and the cache, after handling them in order,
   * mirrors the tables the step left.
   */
  ghost predicate Follows<R>(c: Cache, st: Store.Step<R>)
  {
    (forall i :: 0 <= i < |st.syncs| ==> st.syncs[i].ClientSync?) && Mirrors(Replayed(c, st.syncs), st.tables)
  }

  lemma ApplyOne<T>(c: Cache, x: T, f: (Cache, T) -> Cache)
    ensures Apply(c, [x], f) == f(c, x)
  {
    assert [x][..0] == [];
  }

  lemma ReplayedOne(c: Cache, p: Payload)
    requires p.ClientSync?
    ensures Replayed(c, [p]) == Synced(c, p)
  {
    assert [p][..0] == [];
  }

  /** The packet announcing a removed shift drops it from the cache. */
  lemma ReplayedRemovedShift(c: Cache, id: U64)
    ensures Replayed(c, [Store.RemovedShift(id)]) == Dropped(c, id)
  {
    ReplayedOne(c, Store.RemovedShift(id));
    U64LessTotal();
    WorkerLessTotal();
    ShiftLessTotal();
    SortedSmall(id, U64Less);
    SortedSmall(DefaultShift, ShiftLess);
    SortedSmall(DefaultWorker, WorkerLess);
    ApplyOne(c, id, Dropped);
  }

  /** The packet announcing a changed shift caches it. */
  lemma ReplayedChangedShift(c: Cache, s: Shift)
    ensures Replayed(c, [Store.ChangedShift(s)]) == Cached(c, s)
  {
    ReplayedOne(c, Store.ChangedShift(s));
    U64LessTotal();
    WorkerLessTotal();
    ShiftLessTotal();
    SortedSmall(0 as U64, U64Less);
    SortedSmall(s, ShiftLess);
    SortedSmall(DefaultWorker, WorkerLess);
    ApplyOne(c, s, Cached);
  }

  /** The packet announcing a removed worker forgets it. */
  lemma ReplayedRemovedWorker(c: Cache, w: U64)
    ensures Replayed(c, [Store.RemovedWorker(w)]) == Forgotten(c, w)
  {
    ReplayedOne(c, Store.RemovedWorker(w));
    U64LessTotal();
    WorkerLessTotal();
    ShiftLessTotal();
    SortedSmall(w, U64Less);
    SortedSmall(DefaultShift, ShiftLess);
    SortedSmall(DefaultWorker, WorkerLess);
    ApplyOne(c, w, Forgotten);
  }

  /** The packet announcing a changed worker caches it. */
  lemma ReplayedChangedWorker(c: Cache, w: ShiftWorker)
    ensures Replayed(c, [Store.ChangedWorker(w)]) == Enrolled(c, w)
  {
    ReplayedOne(c, Store.ChangedWorker(w));
    U64LessTotal();
    WorkerLessTotal();
    ShiftLessTotal();
    SortedSmall(0 as U64, U64Less);
    SortedSmall(DefaultShift, ShiftLess);
    SortedSmall(w, WorkerLess);
    ApplyOne(c, w, Enrolled);
  }

  /** The two packets of an edit: the old shift dropped, then the new one cached. */
  lemma ReplayedEdit(c: Cache, s: Shift)
    ensures Replayed(c, [Store.RemovedShift(s.id), Store.ChangedShift(s)]) == Cached(Dropped(c, s.id), s)
  {
    var ps := [Store.RemovedShift(s.id), Store.ChangedShift(s)];
    assert ps[..1] == [Store.RemovedShift(s.id)];
    ReplayedRemovedShift(c, s.id);
    ReplayedChangedShift(Dropped(c, s.id), s);
    ReplayedOne(Dropped(c, s.id), Store.ChangedShift(s));
  }

  /** A step that broadcasts nothing and keeps the tables keeps a mirroring cache mirroring. */
  lemma FollowsQuiet<R>(c: Cache, t: Store.Tables, r: R)
    requires Mirrors(c, t)
    ensures Follows(c, Store.Step(t, [], r))
  {
  }

  /** Dropping a shift on both sides keeps them mirrored. */
  lemma FollowsDropped(c: Cache, t: Store.Tables, id: U64)
    requires Mirrors(c, t)
    ensures Mirrors(Dropped(c, id), Store.DeleteShift(t, id).tables)
  {
    if id in t.shifts {
      var d := DayOf(t.shifts[id]);
      var r := Dropped(c, id);
      var u := Store.DeleteShift(t, id).tables;
      forall e ensures Store.DayIds(r.byDay, e) == Store.DayIds(u.byDay, e) {
        if e != d {
          assert Store.DayIds(r.byDay, e) == Store.DayIds(c.byDay, e);
        }
      }
    }
  }

  /** Storing a shift under a fresh id on both sides keeps them mirrored. */
  lemma FollowsStored(c: Cache, t: Store.Tables, syncs: seq<Payload>, s: Shift)
    requires Mirrors(c, t) && s.id !in t.shifts
    ensures Mirrors(Cached(c, s), Store.Stored(t, syncs, s).tables)
  {
    var d := DayOf(s);
    var r := Cached(c, s);
    var u := Store.Stored(t, syncs, s).tables;
    forall e ensures Store.DayIds(r.byDay, e) == Store.DayIds(u.byDay, e) {
      if e != d {
        assert Store.DayIds(r.byDay, e) == Store.DayIds(c.byDay, e);
      }
    }
  }

  /** An edit that the server accepted: the old listing goes, the new one comes. */
  lemma FollowsEdit(c: Cache, t: Store.Tables, s: Shift)
    requires Mirrors(c, t) && s.id in t.shifts
    ensures Follows(c, Store.Stored(Store.DeleteShift(t, s.id).tables, [Store.RemovedShift(s.id)], s))
  {
    var st := Store.Stored(Store.DeleteShift(t, s.id).tables, [Store.RemovedShift(s.id)], s);
    assert st.syncs == [Store.RemovedShift(s.id), Store.ChangedShift(s)];
    ReplayedEdit(c, s);
    FollowsDropped(c, t, s.id);
    FollowsStored(Dropped(c, s.id), Store.DeleteShift(t, s.id).tables, [Store.RemovedShift(s.id)], s);
  }

  /** An insertion that the server accepted under a fresh id. */
  lemma FollowsFresh(c: Cache, t: Store.Tables, s: Shift)
    requires Mirrors(c, t) && s.id !in t.shifts
    ensures Follows(c, Store.Stored(t, [], s))
  {
    assert Store.Stored(t, [], s).syncs == [Store.ChangedShift(s)];
    ReplayedChangedShift(c, s);
    FollowsStored(c, t, [], s);
  }

  /** The step `insertShift` takes, branch by branch, once the collision check is known to see the tables unchanged. */
  lemma InsertShiftBranches(t: Store.Tables, shift: Shift, editing: bool)
    requires Store.Consistent(t) && ValidShift(shift)
    ensures var st := Store.InsertShift(t, shift, editing);
            var probe := Store.Probe(shift, editing);
            if Store.Rivals(t, probe) != {} || (editing && shift.id !in t.shifts) then st.tables == t && st.syncs == []
            else if editing then st == Store.Stored(Store.DeleteShift(t, shift.id).tables, [Store.RemovedShift(shift.id)], shift)
            else st == Store.Stored(t, [], probe.(id := Store.NewIdentityId(t.shifts)))
  {
    Store.VerifyShiftMeaning(t, Store.Probe(shift, editing));
  }

  /** The client follows an answered shift insertion or edit. */
  lemma FollowsInsertShift(c: Cache, t: Store.Tables, shift: Shift, editing: bool)
    requires Store.Consistent(t) && ValidShift(shift) && Store.U64_MAX !in t.shifts && Mirrors(c, t)
    ensures Follows(c, Store.InsertShift(t, shift, editing))
  {
    var probe := Store.Probe(shift, editing);
    InsertShiftBranches(t, shift, editing);
    if Store.Rivals(t, probe) != {} || (editing && shift.id !in t.shifts) {
    } else if editing {
      FollowsEdit(c, t, shift);
    } else {
      FollowsFresh(c, t, probe.(id := Store.NewIdentityId(t.shifts)));
    }
  }

  /** The client follows an answered shift deletion. */
  lemma FollowsDeleteShift(c: Cache, t: Store.Tables, id: U64)
    requires Mirrors(c, t)
    ensures Follows(c, Store.DeleteShift(t, id))
  {
    if id in t.shifts {
      ReplayedRemovedShift(c, id);
      FollowsDropped(c, t, id);
    }
  }

  /** The client follows an answered worker deletion: the worker goes, and its shifts become unassigned on both sides. */
  lemma FollowsDeleteWorker(c: Cache, t: Store.Tables, w: U64)
    requires Mirrors(c, t)
    ensures Follows(c, Store.DeleteWorker(t, w))
  {
    if w in t.workers {
      ReplayedRemovedWorker(c, w);
    }
  }

  /** The client follows an answered worker insertion or edit. */
  lemma FollowsInsertWorker(c: Cache, t: Store.Tables, worker: ShiftWorker, editing: bool)
    requires Mirrors(c, t)
    ensures Follows(c, Store.InsertWorker(t, worker, editing))
  {
    var st := Store.InsertWorker(t, worker, editing);
    if st.result.Ok? {
      ReplayedChangedWorker(c, st.result.value);
    }
  }

  /** The client follows whatever a permitted request does. */
  lemma FollowsGranted(c: Cache, t: Store.Tables, p: Payload)
    requires Store.Consistent(t) && Store.U64_MAX !in t.shifts
    requires Manager.Gated(p) && (p.InsertShift? ==> ValidShift(p.shift))
    requires Mirrors(c, t)
    ensures Follows(c, Manager.Granted(t, p))
  {
    match p
    case GetShiftsByDay(_, d) => Store.ShiftsOfDayMeaning(t, d);
    case InsertShift(_, s, editing) => FollowsInsertShift(c, t, s, editing);
    case DeleteShift(_, id) => FollowsDeleteShift(c, t, id);
    case GetWorkers(_) =>
    case InsertWorker(_, w, editing) => FollowsInsertWorker(c, t, w, editing);
    case DeleteWorker(_, id) => FollowsDeleteWorker(c, t, id);
  }

  /**
   * Whatever request the server answers, a client whose cache mirrored the
   * server's tables mirrors the new tables once it has handled the
   * synchronisation packets the answer broadcast, in order.
   */
  lemma FollowsAnswer(c: Cache, t: Store.Tables, bag: map<string, Permissions.Mask>, p: Payload)
    requires Store.Consistent(t) && Store.U64_MAX !in t.shifts
    requires Manager.Served(p) && (p.InsertShift? ==> ValidShift(p.shift))
    requires Mirrors(c, t)
    ensures Follows(c, Manager.Answer(t, bag, p).0)
  {
    if Manager.Gated(p) && Store.VerifyPermission(Store.Held(bag), Manager.Required(p)) {
      FollowsGranted(c, t, p);
    }
  }

  // ----------------------------------------------------------------- requests

  const BadAddressMsg: string := "Invalid hostname/port"
  const NoSocketMsg: string := "Could not create a TCP socket"
  const NoConnectionMsg: string := "Could not establish connection"

  /**
   * What the network answers when `connect(host, port)` dials the endpoint:
   * the address does not resolve, no TCP socket can be made, the peer does
   * not accept, or a socket comes back.
   */
  datatype Dial = BadAddress | NoSocket | NoConnection | Dialed(socket: Socket)

  /** The exception `connect(host, port)` throws before it has a socket; none once it has one. */
  function DialError(d: Dial): (e: Option<Error>)
    ensures e.None? <==> d.Dialed?
  {
    match d
    case BadAddress => Some(RuntimeError(BadAddressMsg))
    case NoSocket => Some(RuntimeError(NoSocketMsg))
    case NoConnection => Some(RuntimeError(NoConnectionMsg))
    case Dialed(_) => None
  }

  /**
   * `onConnected`'s `authorize()` with the current token.  Observers are told
   * only while the connection is alive, so its `ensureConnected` dials nothing
   * and the request goes straight to `writeRequestSync`.
   */
  function Authorized(s: ConnState, token: ByteString): (res: (ConnState, Result<()>))
    ensures res.0.observers == s.observers && res.0.id == s.id
    ensures res.0.lastRequestId == NextRequestId(s.lastRequestId)
  {
    var (t, _, w) := WriteRequestSpec(s, Packets.Authorize(0, token));
    (t, if w.Fail? then Fail(w.error) else Ok(()))
  }

  /**
   * `connect()`: the endpoint is dialed, then `connect(socket)` runs; when it
   * leaves the connection alive the client, its observer, is told and
   * authorizes.  Returns the connection's state, the next connection id, and
   * the outcome.
   */
  function Reconnect(s: ConnState, d: Dial, lastId: int, token: ByteString): (res: (ConnState, int, Result<()>))
    ensures res.0.observers == s.observers
  {
    if !d.Dialed? then (s, lastId, Fail(DialError(d).value))
    else
      var (s1, n1, r1) := ConnectSpec(s, Some(d.socket), lastId);
      if r1.Fail? then (s1, n1, Fail(r1.error))
      else if !Alive(s1) then (s1, n1, Ok(()))
      else
        var (s2, r2) := Authorized(s1, token);
        (s2, n1, r2)
  }

  /** `ensureConnected`: a live connection is left alone, any other one reconnects. */
  function Ensured(s: ConnState, d: Dial, lastId: int, token: ByteString): (res: (ConnState, int, Result<()>))
    ensures res.0.observers == s.observers
  {
    if Alive(s) then (s, lastId, Ok(())) else Reconnect(s, d, lastId, token)
  }

  /** `writeRequest`: `ensureConnected`, then `writeRequestSync`; the outcome is the request id the packet was stamped with. */
  function Requested(s: ConnState, d: Dial, lastId: int, token: ByteString, p: Payload): (res: (ConnState, int, Result<Int32>))
    requires IsTrackable(p)
    ensures res.0.observers == s.observers
  {
    var e := Ensured(s, d, lastId, token);
    if e.2.Fail? then (e.0, e.1, Fail(e.2.error))
    else
      var w := WriteRequestSpec(e.0, p);
      (w.0, e.1, w.2)
  }

  /** On a live connection a request is written at once under the next request id, and nothing is dialed. */
  lemma RequestOnLiveConnection(s: ConnState, d: Dial, lastId: int, token: ByteString, p: Payload)
    requires IsTrackable(p) && Alive(s)
    ensures var (t, n, r) := Requested(s, d, lastId, token, p);
            n == lastId && t.id == s.id && t.lastRequestId == NextRequestId(s.lastRequestId) &&
            (r.Ok? ==> r.value == t.lastRequestId)
  {
  }

  /** A failed dial writes nothing and uses no id: the request fails with the dial's exception. */
  lemma RequestDialFailure(s: ConnState, d: Dial, lastId: int, token: ByteString, p: Payload)
    requires IsTrackable(p) && !Alive(s) && !d.Dialed?
    ensures Requested(s, d, lastId, token, p) == (s, lastId, Fail(DialError(d).value))
  {
  }

  /**
   * A request that reconnects is written after the authorization the
   * reconnection sends: the connection takes the next connection id, and a
   * request that goes out carries the id after the authorization's.
   */
  lemma ReconnectAuthorizesFirst(s: ConnState, sock: Socket, lastId: int, token: ByteString, p: Payload)
    requires IsTrackable(p) && !Alive(s) && sock.connected
    ensures var (t, n, r) := Requested(s, Dialed(sock), lastId, token, p);
            n == lastId + 1 && t.id == lastId &&
            (r.Ok? ==> r.value == NextRequestId(NextRequestId(s.lastRequestId)))
  {
    var (s1, n1, r1) := ConnectSpec(s, Some(sock), lastId);
    if r1.Ok? && Alive(s1) {
      var (s2, r2) := Authorized(s1, token);
      assert s2.lastRequestId == NextRequestId(s.lastRequestId);
    }
  }

  // ------------------------------------------------------------------ replies

  /** The handlers the constructor registers, numbered in registration order. */
  const AuthorizeReplyHandler: Callback := 1
  const DeleteShiftReplyHandler: Callback := 2
  const GetShiftsReplyHandler: Callback := 3
  const GetWorkersReplyHandler: Callback := 4
  const InsertShiftReplyHandler: Callback := 5
  const InsertWorkerReplyHandler: Callback := 6
  const DeleteWorkerReplyHandler: Callback := 7
  const ClientSyncHandler: Callback := 8

  /** The tags the client has handlers for. */
  const ReplyTags: set<Tag> := {TagS2CAuthorizeReply, TagS2CDeleteShiftReply, TagS2CGetShiftsReply, TagS2CGetWorkersReply,
                                TagS2CInsertShiftReply, TagS2CInsertWorkerReply, TagS2CDeleteWorkerReply, TagS2CClientSync}

  /** The handler the constructor registers under a reply tag. */
  function HandlerFor(t: Tag): Callback
  {
    if t == TagS2CAuthorizeReply then AuthorizeReplyHandler
    else if t == TagS2CDeleteShiftReply then DeleteShiftReplyHandler
    else if t == TagS2CGetShiftsReply then GetShiftsReplyHandler
    else if t == TagS2CGetWorkersReply then GetWorkersReplyHandler
    else if t == TagS2CInsertShiftReply then InsertShiftReplyHandler
    else if t == TagS2CInsertWorkerReply then InsertWorkerReplyHandler
    else if t == TagS2CDeleteWorkerReply then DeleteWorkerReplyHandler
    else ClientSyncHandler
  }

  /** The handler table after the constructor: one handler under each tag the client handles. */
  function HandlerTable(): map<Tag, seq<Callback>>
  {
    map t | t in ReplyTags :: [HandlerFor(t)]
  }

  /** The table the constructor's eight `addHandler` calls build, in their order. */
  lemma HandlerTableInOrder()
    ensures HandlerTable() == map[TagS2CAuthorizeReply := [AuthorizeReplyHandler]][TagS2CDeleteShiftReply := [DeleteShiftReplyHandler]]
                                 [TagS2CGetShiftsReply := [GetShiftsReplyHandler]][TagS2CGetWorkersReply := [GetWorkersReplyHandler]]
                                 [TagS2CInsertShiftReply := [InsertShiftReplyHandler]][TagS2CInsertWorkerReply := [InsertWorkerReplyHandler]]
                                 [TagS2CDeleteWorkerReply := [DeleteWorkerReplyHandler]][TagS2CClientSync := [ClientSyncHandler]]
  {
  }

  /** Adding a handler under a tag that has none leaves exactly that handler there. */
  lemma AddedFresh(h: map<Tag, seq<Callback>>, t: Tag, cb: Callback)
    requires t !in h
    ensures h[t := HandlersOf(h, t) + [cb]] == h[t := [cb]]
  {
    assert HandlersOf(h, t) + [cb] == [cb];
  }

  /** The payloads the client handles: the seven replies and the synchronisation packet. */
  predicate Handles(p: Payload)
  {
    p.AuthorizeReply? || p.DeleteShiftReply? || p.GetShiftsReply? || p.GetWorkersReply? ||
    p.InsertShiftReply? || p.InsertWorkerReply? || p.DeleteWorkerReply? || p.ClientSync?
  }

  /** The handler registered for a handled payload. */
  function HandlerOf(p: Payload): (cb: Callback)
    requires Handles(p)
    ensures HandlerTable()[TagOf(p)] == [cb]
  {
    match p
    case AuthorizeReply(_, _) => AuthorizeReplyHandler
    case DeleteShiftReply(_, _) => DeleteShiftReplyHandler
    case GetShiftsReply(_, _, _) => GetShiftsReplyHandler
    case GetWorkersReply(_, _) => GetWorkersReplyHandler
    case InsertShiftReply(_, _) => InsertShiftReplyHandler
    case InsertWorkerReply(_, _) => InsertWorkerReplyHandler
    case DeleteWorkerReply(_, _) => DeleteWorkerReplyHandler
    case ClientSync(_, _, _, _) => ClientSyncHandler
  }

  /** A handled payload reaches exactly its own handler; any other payload reaches none. */
  lemma HandlerTableDispatch(p: Payload, size: nat)
    ensures Handles(p) ==> Dispatch(HandlerTable(), p, size) == [Call(HandlerOf(p), p, size)]
    ensures !Handles(p) ==> Dispatch(HandlerTable(), p, size) == []
  {
    if !Handles(p) {
      assert TagOf(p) !in HandlerTable();
    }
  }

  /**
   * What a handler does to the cache and the granted permissions: an
   * authorization reply sets the permissions whether or not it succeeded, a
   * day's shifts are cached without looking at the reply's success, the
   * workers' reply is merged in, and the other replies apply their change only
   * when they report success.
   */
  function Handled(c: Cache, held: Permissions.Mask, p: Payload): (res: (Cache, Permissions.Mask))
    requires Handles(p)
    ensures p.AuthorizeReply? ==> res == (c, p.permissions as bv16)
    ensures !p.AuthorizeReply? ==> res.1 == held
    ensures (p.DeleteShiftReply? || p.InsertShiftReply? || p.InsertWorkerReply? || p.DeleteWorkerReply?) && !p.reply.success ==> res == (c, held)
  {
    U64LessTotal();
    WorkerLessTotal();
    ShiftLessTotal();
    match p
    case AuthorizeReply(_, permissions) => (c, permissions as bv16)
    case DeleteShiftReply(reply, id) => (if reply.success then Dropped(c, id) else c, held)
    case GetShiftsReply(_, _, shifts) => (Apply(c, Sorted(shifts, ShiftLess), Cached), held)
    case GetWorkersReply(_, workers) => (c.(workers := c.workers + workers), held)
    case InsertShiftReply(reply, shift) => (if reply.success then Cached(c, shift) else c, held)
    case InsertWorkerReply(reply, worker) => (if reply.success then Enrolled(c, worker) else c, held)
    case DeleteWorkerReply(reply, id) => (if reply.success then Discharged(c, id) else c, held)
    case ClientSync(_, _, _, _) => (Synced(c, p), held)
  }

  /** Whatever the server sends, handling it keeps the cache's index sound. */
  lemma HandledKeeps(c: Cache, held: Permissions.Mask, p: Payload)
    requires Indexed(c) && Handles(p)
    ensures Indexed(Handled(c, held, p).0)
  {
    match p
    case AuthorizeReply(_, _) =>
    case DeleteShiftReply(_, id) => DroppedKeeps(c, id);
    case GetShiftsReply(_, _, shifts) =>
      forall c', s: Shift | Indexed(c') ensures Indexed(Cached(c', s)) {
        CachedKeeps(c', s);
      }
      ShiftLessTotal();
      ApplyKeeps(c, Sorted(shifts, ShiftLess), Cached);
    case GetWorkersReply(_, _) =>
    case InsertShiftReply(_, s) => CachedKeeps(c, s);
    case InsertWorkerReply(_, _) =>
    case DeleteWorkerReply(_, id) => DischargedKeeps(c, id);
    case ClientSync(_, _, _, _) => SyncedKeeps(c, p);
  }

  /** A sound index on the server's side gives one on a cache that mirrors it. */
  lemma MirrorsIndexed(c: Cache, t: Store.Tables)
    requires Mirrors(c, t) && Store.Indexed(t)
    ensures Indexed(c)
  {
    forall d, id | d in c.byDay && id in c.byDay[d] ensures id in c.shifts && c.shifts[id].startTime.date == d {
      assert id in Store.DayIds(c.byDay, d);
    }
    forall id | id in c.shifts ensures id in Store.DayIds(c.byDay, c.shifts[id].startTime.date) {
      assert id in Store.DayIds(t.byDay, t.shifts[id].startTime.date);
    }
  }

  /** Caching a shift the cache already holds changes nothing: its id is listed under its day already. */
  lemma CachedPresent(c: Cache, s: Shift)
    requires Indexed(c) && s.id in c.shifts && c.shifts[s.id] == s
    ensures Cached(c, s) == c
  {
    var d := DayOf(s);
    assert s.id in Store.DayIds(c.byDay, d);
    var r := Cached(c, s);
    assert r.shifts == c.shifts;
    assert (Store.DayIds(c.byDay, d) - {s.id}) + {s.id} == c.byDay[d];
    assert r.byDay == c.byDay[d := c.byDay[d]] == c.byDay;
  }

  /** Caching, in turn, shifts that are all held already changes nothing. */
  lemma {:induction false} ApplyPresent(c: Cache, xs: seq<Shift>)
    requires Indexed(c)
    requires forall i :: 0 <= i < |xs| ==> xs[i].id in c.shifts && c.shifts[xs[i].id] == xs[i]
    ensures Apply(c, xs, Cached) == c
    decreases |xs|
  {
    if xs != [] {
      ApplyPresent(c, xs[..|xs| - 1]);
      CachedPresent(c, xs[|xs| - 1]);
    }
  }

  /** Releasing a worker's shifts twice is releasing them once. */
  lemma UnassignedTwice(m: map<U64, Shift>, w: U64)
    ensures Store.Unassigned(Store.Unassigned(m, w), w) == Store.Unassigned(m, w)
  {
    var u := Store.Unassigned(m, w);
    assert forall k :: k in u ==> Store.Released(u[k], w) == u[k];
  }

  /** Caching, in ascending order, a set of shifts that are all held already changes nothing. */
  lemma SortedPresent(c: Cache, shifts: set<Shift>)
    requires Indexed(c) && StrictTotal(ShiftLess)
    requires forall s :: s in shifts ==> s.id in c.shifts && c.shifts[s.id] == s
    ensures Apply(c, Sorted(shifts, ShiftLess), Cached) == c
  {
    var xs := Sorted(shifts, ShiftLess);
    assert forall i :: 0 <= i < |xs| ==> xs[i] in shifts;
    ApplyPresent(c, xs);
  }

  /** A permitted day query sends stored shifts only: caching them again changes nothing. */
  lemma RepliedShifts(c: Cache, held: Permissions.Mask, t: Store.Tables, rid: Int32, d: Date)
    requires Store.Consistent(t) && Mirrors(c, t)
    ensures Handled(c, held, Manager.GrantedShifts(t, rid, d).result).0 == c
  {
    Store.ShiftsOfDayMeaning(t, d);
    MirrorsIndexed(c, t);
    var shifts := Manager.GrantedShifts(t, rid, d).result.shifts;
    forall s | s in shifts ensures s.id in c.shifts && c.shifts[s.id] == s {
      var k :| k in t.shifts && t.shifts[k] == s;
    }
    ShiftLessTotal();
    SortedPresent(c, shifts);
  }

  /** A shift the server stored comes back in a reply the cache already reflects. */
  lemma RepliedInsertShift(c: Cache, held: Permissions.Mask, t: Store.Tables, rid: Int32, s: Shift, editing: bool)
    requires Store.Consistent(t) && ValidShift(s) && Store.U64_MAX !in t.shifts
    requires Mirrors(c, Manager.GrantedInsertShift(t, rid, s, editing).tables)
    ensures Handled(c, held, Manager.GrantedInsertShift(t, rid, s, editing).result).0 == c
  {
    var st := Store.InsertShift(t, s, editing);
    if st.result.Ok? {
      Store.InsertShiftOutcome(t, s, editing);
      Store.InsertShiftKeeps(t, s, editing);
      MirrorsIndexed(c, st.tables);
      CachedPresent(c, st.result.value);
    }
  }

  /** A deleted shift's reply finds it gone already. */
  lemma RepliedDeleteShift(c: Cache, held: Permissions.Mask, t: Store.Tables, rid: Int32, id: U64)
    requires Mirrors(c, Manager.GrantedDeleteShift(t, rid, id).tables)
    ensures Handled(c, held, Manager.GrantedDeleteShift(t, rid, id).result).0 == c
  {
  }

  /** A stored worker's reply finds it stored already. */
  lemma RepliedInsertWorker(c: Cache, held: Permissions.Mask, t: Store.Tables, rid: Int32, w: ShiftWorker, editing: bool)
    requires Mirrors(c, Manager.GrantedInsertWorker(t, rid, w, editing).tables)
    ensures Handled(c, held, Manager.GrantedInsertWorker(t, rid, w, editing).result).0 == c
  {
    var st := Store.InsertWorker(t, w, editing);
    if st.result.Ok? {
      assert c.workers[st.result.value.id := st.result.value] == c.workers;
    }
  }

  /** A deleted worker's reply finds it gone and its shifts released already. */
  lemma RepliedDeleteWorker(c: Cache, held: Permissions.Mask, t: Store.Tables, rid: Int32, id: U64)
    requires Mirrors(c, Manager.GrantedDeleteWorker(t, rid, id).tables)
    ensures Handled(c, held, Manager.GrantedDeleteWorker(t, rid, id).result).0 == c
  {
    var st := Store.DeleteWorker(t, id);
    if st.result {
      assert st.tables.shifts == Store.Unassigned(t.shifts, id);
      UnassignedTwice(t.shifts, id);
      assert c.workers - {id} == c.workers;
    }
  }

  /** Whatever a permitted request did, its reply finds the cache that followed the request already up to date. */
  lemma RepliedGranted(c: Cache, held: Permissions.Mask, t: Store.Tables, p: Payload)
    requires Store.Consistent(t) && Store.U64_MAX !in t.shifts
    requires Manager.Gated(p) && (p.InsertShift? ==> ValidShift(p.shift))
    requires Mirrors(c, Manager.Granted(t, p).tables)
    ensures Handles(Manager.Granted(t, p).result)
    ensures Handled(c, held, Manager.Granted(t, p).result).0 == c
  {
    match p
    case GetShiftsByDay(rid, d) => Store.ShiftsOfDayMeaning(t, d); RepliedShifts(c, held, t, rid, d);
    case InsertShift(rid, s, editing) => RepliedInsertShift(c, held, t, rid, s, editing);
    case DeleteShift(rid, id) => RepliedDeleteShift(c, held, t, rid, id);
    case GetWorkers(_) => assert c.workers + t.workers == c.workers;
    case InsertWorker(rid, w, editing) => RepliedInsertWorker(c, held, t, rid, w, editing);
    case DeleteWorker(rid, id) => RepliedDeleteWorker(c, held, t, rid, id);
  }

  /** A refused request's reply changes nothing: it fails, or carries no shifts or workers. */
  lemma RepliedRefused(c: Cache, held: Permissions.Mask, p: Payload)
    requires Manager.Gated(p)
    ensures Handles(Manager.Refused(p))
    ensures Handled(c, held, Manager.Refused(p)).0 == c
  {
    if p.GetShiftsByDay? {
      ShiftLessTotal();
      SortedSmall(DefaultShift, ShiftLess);
    } else if p.GetWorkers? {
      assert c.workers + map[] == c.workers;
    }
  }

  /**
   * The server broadcasts a request's synchronisation packets before it
   * replies, so the requesting client handles them first; by then the reply
   * has nothing left to change in the cache, which mirrors the server's new
   * tables, and the permissions it leaves the client holding are those the
   * server now holds for the connection.
   */
  lemma ReplyAfterSync(c: Cache, t: Store.Tables, bag: map<string, Permissions.Mask>, p: Payload)
    requires Store.Consistent(t) && Store.U64_MAX !in t.shifts
    requires Manager.Served(p) && !p.Ping? && (p.InsertShift? ==> ValidShift(p.shift))
    requires Mirrors(c, t)
    ensures Follows(c, Manager.Answer(t, bag, p).0)
    ensures Handles(Manager.Answer(t, bag, p).0.result)
    ensures var st := Manager.Answer(t, bag, p).0;
            Handled(Replayed(c, st.syncs), Store.Held(bag), st.result) ==
            (Replayed(c, st.syncs), Store.Held(Manager.Answer(t, bag, p).1))
  {
    FollowsAnswer(c, t, bag, p);
    if Manager.Gated(p) {
      var held := Store.Held(bag);
      if Store.VerifyPermission(held, Manager.Required(p)) {
        RepliedGranted(Replayed(c, Manager.Granted(t, p).syncs), held, t, p);
      } else {
        RepliedRefused(c, held, p);
      }
    }
  }

  // ---------------------------------------------------------------- the loops

  /** The loop over `_shifts` that sets the worker id of every shift of worker `w` to 0. */
  method Unassign(m: map<U64, Shift>, w: U64) returns (u: map<U64, Shift>)
    ensures u == Store.Unassigned(m, w)
  {
    u := m;
    var todo := m.Keys;
    while todo != {}
      invariant todo <= m.Keys && u.Keys == m.Keys
      invariant forall k :: k in u ==> u[k] == (if k in todo then m[k] else Store.Released(m[k], w))
      decreases todo
    {
      var k :| k in todo;
      if u[k].workerId == w {
        u := u[k := u[k].(workerId := 0)];
      }
      todo := todo - {k};
    }
  }

  /** The loop of `onGetWorkers`: `_workers[kv.first] = kv.second` for every entry of the reply. */
  method Merge(m: map<U64, ShiftWorker>, n: map<U64, ShiftWorker>) returns (r: map<U64, ShiftWorker>)
    ensures r == m + n
  {
    r := m;
    var todo := n.Keys;
    while todo != {}
      invariant todo <= n.Keys && r.Keys == m.Keys + (n.Keys - todo)
      invariant forall k :: k in r ==> r[k] == (if k in n && k !in todo then n[k] else m[k])
      decreases todo
    {
      var k :| k in todo;
      r := r[k := n[k]];
      todo := todo - {k};
    }
  }

  /** The constructor's eight `addHandler` calls, in their order. */
  method RegisterHandlers(obs: Observer)
    requires obs.handlers == map[]
    modifies obs
    ensures obs.handlers == HandlerTable()
  {
    AddedFresh(obs.handlers, TagS2CAuthorizeReply, AuthorizeReplyHandler);
    obs.AddHandler(TagS2CAuthorizeReply, AuthorizeReplyHandler);
    AddedFresh(obs.handlers, TagS2CDeleteShiftReply, DeleteShiftReplyHandler);
    obs.AddHandler(TagS2CDeleteShiftReply, DeleteShiftReplyHandler);
    AddedFresh(obs.handlers, TagS2CGetShiftsReply, GetShiftsReplyHandler);
    obs.AddHandler(TagS2CGetShiftsReply, GetShiftsReplyHandler);
    AddedFresh(obs.handlers, TagS2CGetWorkersReply, GetWorkersReplyHandler);
    obs.AddHandler(TagS2CGetWorkersReply, GetWorkersReplyHandler);
    AddedFresh(obs.handlers, TagS2CInsertShiftReply, InsertShiftReplyHandler);
    obs.AddHandler(TagS2CInsertShiftReply, InsertShiftReplyHandler);
    AddedFresh(obs.handlers, TagS2CInsertWorkerReply, InsertWorkerReplyHandler);
    obs.AddHandler(TagS2CInsertWorkerReply, InsertWorkerReplyHandler);
    AddedFresh(obs.handlers, TagS2CDeleteWorkerReply, DeleteWorkerReplyHandler);
    obs.AddHandler(TagS2CDeleteWorkerReply, DeleteWorkerReplyHandler);
    AddedFresh(obs.handlers, TagS2CClientSync, ClientSyncHandler);
    obs.AddHandler(TagS2CClientSync, ClientSyncHandler);
    HandlerTableInOrder();
  }

  // --------------------------------------------------------------- the class

  /** `RestaurantClient`: the connection to the server, its endpoint and token, the cache and the granted permissions. */
  class RestaurantClient {
    /** `_connection`. */
    const connection: Connection
    /** The client's `ConnectionObserver` part. */
    const observer: Observer
    var host: string
    var port: Int32
    var token: ByteString
    var shifts: map<U64, Shift>
    var byDay: map<Date, set<U64>>
    var workers: map<U64, ShiftWorker>
    var permissions: Permissions.Mask

    function Contents(): Cache
      reads this
    {
      Cache(shifts, byDay, workers)
    }

    function Endpoint(): (string, Int32, ByteString)
      reads this
    {
      (host, port, token)
    }

    /** The client is its connection's only observer, and its handler table is the one the constructor builds. */
    predicate Valid()
      reads this, connection, observer
    {
      connection.observers == [observer] && observer.handlers == HandlerTable()
    }

    /**
     * `RestaurantClient(host, port, token)`: an empty cache, the endpoint and
     * token, a fresh connection the client subscribes to, and its eight
     * handlers in order.  The permissions are left as they come.
     */
    constructor(host: string, port: Int32, token: ByteString)
      ensures Endpoint() == (host, port, token) && Contents() == EmptyCache
      ensures fresh(connection) && fresh(observer) && Valid()
      ensures connection.State() == ConnState(None, -1, 0, [observer], false, true, true, [], [])
    {
      connection := new Connection();
      observer := new Observer();
      new;
      this.host, this.port := host, port;
      this.token := token;
      shifts, byDay, workers := map[], map[], map[];
      connection.Subscribe(observer);
      RegisterHandlers(observer);
    }

    /** `setEndpoint`. */
    method SetEndpoint(host: string, port: Int32)
      modifies this
      ensures Endpoint() == (host, port, old(token))
      ensures Contents() == old(Contents()) && permissions == old(permissions)
    {
      this.host, this.port := host, port;
    }

    /** `setToken`. */
    method SetToken(token: ByteString)
      modifies this
      ensures Endpoint() == (old(host), old(port), token)
      ensures Contents() == old(Contents()) && permissions == old(permissions)
    {
      this.token := token;
    }

    /** `close`. */
    method Close()
      requires Valid()
      modifies connection
      ensures Valid()
      ensures connection.State() == Disconnect(old(connection.State()), RuntimeError(CloseMsg))
    {
      connection.Close();
    }

    // ------------------------------------------------------------ requests

    /** `onConnected`'s reaction: `authorize()` on the live connection (the reading thread is not modelled). */
    method OnConnected() returns (r: Result<()>)
      requires Valid()
      modifies connection
      ensures Valid()
      ensures (connection.State(), r) == Authorized(old(connection.State()), token)
    {
      var _, w := connection.WriteRequestSync(Packets.Authorize(0, token));
      r := if w.Fail? then Fail(w.error) else Ok(());
    }

    /** `connect()`: dial the endpoint, hand the socket to the connection, and authorize once told it is up. */
    method Connect(dial: Dial, counter: IdCounter) returns (r: Result<()>)
      requires Valid()
      modifies connection, counter
      ensures Valid()
      ensures (connection.State(), counter.lastId, r) == Reconnect(old(connection.State()), dial, old(counter.lastId), token)
    {
      if !dial.Dialed? {
        return Fail(DialError(dial).value);
      }
      var c := connection.Connect(Some(dial.socket), counter);
      if c.Fail? {
        return Fail(c.error);
      }
      if !connection.IsAlive() {
        return Ok(());
      }
      r := OnConnected();
    }

    /** `ensureConnected`. */
    method EnsureConnected(dial: Dial, counter: IdCounter) returns (r: Result<()>)
      requires Valid()
      modifies connection, counter
      ensures Valid()
      ensures (connection.State(), counter.lastId, r) == Ensured(old(connection.State()), dial, old(counter.lastId), token)
    {
      if connection.IsAlive() {
        return Ok(());
      }
      r := Connect(dial, counter);
    }

    /** `writeRequest`. */
    method WriteRequest(p: Payload, dial: Dial, counter: IdCounter) returns (r: Result<Int32>)
      requires Valid() && IsTrackable(p)
      modifies connection, counter
      ensures Valid()
      ensures (connection.State(), counter.lastId, r) == Requested(old(connection.State()), dial, old(counter.lastId), token, p)
    {
      var e := EnsureConnected(dial, counter);
      if e.Fail? {
        r := Fail(e.error);
      } else {
        var _, w := connection.WriteRequestSync(p);
        r := w;
      }
    }

    /** `authorize()`: the current token. */
    method Authorize(dial: Dial, counter: IdCounter) returns (r: Result<Int32>)
      requires Valid()
      modifies connection, counter
      ensures Valid()
      ensures (connection.State(), counter.lastId, r) == Requested(old(connection.State()), dial, old(counter.lastId), token, Packets.Authorize(0, token))
    {
      r := WriteRequest(Packets.Authorize(0, token), dial, counter);
    }

    /** `authorize(newToken)`: the token is replaced first, so a reconnection authorizes with it too. */
    method AuthorizeWith(newToken: ByteString, dial: Dial, counter: IdCounter) returns (r: Result<Int32>)
      requires Valid()
      modifies this, connection, counter
      ensures Valid()
      ensures Endpoint() == (old(host), old(port), newToken)
      ensures Contents() == old(Contents()) && permissions == old(permissions)
      ensures (connection.State(), counter.lastId, r) == Requested(old(connection.State()), dial, old(counter.lastId), newToken, Packets.Authorize(0, newToken))
    {
      token := newToken;
      r := Authorize(dial, counter);
    }

    /** `queryDeleteShift`. */
    method QueryDeleteShift(shiftId: U64, dial: Dial, counter: IdCounter) returns (r: Result<Int32>)
      requires Valid()
      modifies connection, counter
      ensures Valid()
      ensures (connection.State(), counter.lastId, r) == Requested(old(connection.State()), dial, old(counter.lastId), token, Packets.DeleteShift(0, shiftId))
    {
      r := WriteRequest(Packets.DeleteShift(0, shiftId), dial, counter);
    }

    /** `queryShiftsByDay`. */
    method QueryShiftsByDay(day: Date, dial: Dial, counter: IdCounter) returns (r: Result<Int32>)
      requires Valid()
      modifies connection, counter
      ensures Valid()
      ensures (connection.State(), counter.lastId, r) == Requested(old(connection.State()), dial, old(counter.lastId), token, Packets.GetShiftsByDay(0, day))
    {
      r := WriteRequest(Packets.GetShiftsByDay(0, day), dial, counter);
    }

    /** `queryWorkers`. */
    method QueryWorkers(dial: Dial, counter: IdCounter) returns (r: Result<Int32>)
      requires Valid()
      modifies connection, counter
      ensures Valid()
      ensures (connection.State(), counter.lastId, r) == Requested(old(connection.State()), dial, old(counter.lastId), token, Packets.GetWorkers(0))
    {
      r := WriteRequest(Packets.GetWorkers(0), dial, counter);
    }

    /** `queryInsertShift`. */
    method QueryInsertShift(shift: Shift, modifying: bool, dial: Dial, counter: IdCounter) returns (r: Result<Int32>)
      requires Valid()
      modifies connection, counter
      ensures Valid()
      ensures (connection.State(), counter.lastId, r) == Requested(old(connection.State()), dial, old(counter.lastId), token, Packets.InsertShift(0, shift, modifying))
    {
      r := WriteRequest(Packets.InsertShift(0, shift, modifying), dial, counter);
    }

    /** `queryUpdateShift`: an insertion that modifies. */
    method QueryUpdateShift(shift: Shift, dial: Dial, counter: IdCounter) returns (r: Result<Int32>)
      requires Valid()
      modifies connection, counter
      ensures Valid()
      ensures (connection.State(), counter.lastId, r) == Requested(old(connection.State()), dial, old(counter.lastId), token, Packets.InsertShift(0, shift, true))
    {
      r := QueryInsertShift(shift, true, dial, counter);
    }

    /** `queryInsertWorker`. */
    method QueryInsertWorker(worker: ShiftWorker, modifying: bool, dial: Dial, counter: IdCounter) returns (r: Result<Int32>)
      requires Valid()
      modifies connection, counter
      ensures Valid()
      ensures (connection.State(), counter.lastId, r) == Requested(old(connection.State()), dial, old(counter.lastId), token, Packets.InsertWorker(0, worker, modifying))
    {
      r := WriteRequest(Packets.InsertWorker(0, worker, modifying), dial, counter);
    }

    /** `queryUpdateWorker`: an insertion that modifies. */
    method QueryUpdateWorker(worker: ShiftWorker, dial: Dial, counter: IdCounter) returns (r: Result<Int32>)
      requires Valid()
      modifies connection, counter
      ensures Valid()
      ensures (connection.State(), counter.lastId, r) == Requested(old(connection.State()), dial, old(counter.lastId), token, Packets.InsertWorker(0, worker, true))
    {
      r := QueryInsertWorker(worker, true, dial, counter);
    }

    /** `queryDeleteWorker`. */
    method QueryDeleteWorker(workerId: U64, dial: Dial, counter: IdCounter) returns (r: Result<Int32>)
      requires Valid()
      modifies connection, counter
      ensures Valid()
      ensures (connection.State(), counter.lastId, r) == Requested(old(connection.State()), dial, old(counter.lastId), token, Packets.DeleteWorker(0, workerId))
    {
      r := WriteRequest(Packets.DeleteWorker(0, workerId), dial, counter);
    }

    // --------------------------------------------------------------- cache

    /** `deleteShift`. */
    method DeleteShift(id: U64)
      modifies this
      ensures Contents() == Dropped(old(Contents()), id)
      ensures Endpoint() == old(Endpoint()) && permissions == old(permissions)
    {
      if id in shifts {
        var d := DayOf(shifts[id]);
        byDay := byDay[d := Store.DayIds(byDay, d) - {id}];
        shifts := shifts - {id};
      }
    }

    /** `insertShift`. */
    method InsertShift(shift: Shift)
      modifies this
      ensures Contents() == Cached(old(Contents()), shift)
      ensures Endpoint() == old(Endpoint()) && permissions == old(permissions)
    {
      if shift.id in shifts {
        DeleteShift(shift.id);
      }
      var d := DayOf(shift);
      shifts := shifts[shift.id := shift];
      byDay := byDay[d := Store.DayIds(byDay, d) + {shift.id}];
    }

    /** `deleteWorker`. */
    method DeleteWorker(id: U64)
      modifies this
      ensures Contents() == Forgotten(old(Contents()), id)
      ensures Endpoint() == old(Endpoint()) && permissions == old(permissions)
    {
      if id in workers {
        workers := workers - {id};
        shifts := Unassign(shifts, id);
      }
    }

    /** `getShift`. */
    method GetShift(id: U64) returns (r: Result<Shift>)
      ensures r == ShiftAt(Contents(), id)
    {
      if id !in shifts {
        return Fail(InvalidArgument(NotFoundMsg));
      }
      return Ok(shifts[id]);
    }

    /** `getWorker`. */
    method GetWorker(id: U64) returns (r: Result<ShiftWorker>)
      ensures r == WorkerAt(Contents(), id)
    {
      if id !in workers {
        return Fail(InvalidArgument(NotFoundMsg));
      }
      return Ok(workers[id]);
    }

    /** `getShifts(day)`: `getShift` of each id listed for the day. */
    method GetShifts(day: Date) returns (r: Result<set<Shift>>)
      ensures r == DayShifts(Contents(), day)
    {
      if day !in byDay {
        return Ok({});
      }
      var ids := byDay[day];
      var todo := ids;
      var found: set<Shift> := {};
      while todo != {}
        invariant todo <= ids && ids - todo <= shifts.Keys
        invariant found == set id | id in ids - todo :: shifts[id]
        decreases todo
      {
        var id :| id in todo;
        var s := GetShift(id);
        if s.Fail? {
          return Fail(s.error);
        }
        found := found + {s.value};
        todo := todo - {id};
      }
      assert ids - todo == ids;
      return Ok(found);
    }

    // ------------------------------------------------------------- handlers

    /** `deleteShift` for each id in turn. */
    method DropAll(ids: seq<U64>)
      modifies this
      ensures Contents() == Apply(old(Contents()), ids, Dropped)
      ensures Endpoint() == old(Endpoint()) && permissions == old(permissions)
    {
      for i := 0 to |ids|
        invariant Contents() == Apply(old(Contents()), ids[..i], Dropped)
        invariant Endpoint() == old(Endpoint()) && permissions == old(permissions)
      {
        assert ids[..i + 1][..i] == ids[..i];
        DeleteShift(ids[i]);
      }
      assert ids[..|ids|] == ids;
    }

    /** `deleteWorker` for each id in turn. */
    method ForgetAll(ids: seq<U64>)
      modifies this
      ensures Contents() == Apply(old(Contents()), ids, Forgotten)
      ensures Endpoint() == old(Endpoint()) && permissions == old(permissions)
    {
      for i := 0 to |ids|
        invariant Contents() == Apply(old(Contents()), ids[..i], Forgotten)
        invariant Endpoint() == old(Endpoint()) && permissions == old(permissions)
      {
        assert ids[..i + 1][..i] == ids[..i];
        DeleteWorker(ids[i]);
      }
      assert ids[..|ids|] == ids;
    }

    /** `_workers[worker.getId()] = worker` for each worker in turn. */
    method PutAll(ws: seq<ShiftWorker>)
      modifies this
      ensures Contents() == Apply(old(Contents()), ws, Enrolled)
      ensures Endpoint() == old(Endpoint()) && permissions == old(permissions)
    {
      for i := 0 to |ws|
        invariant Contents() == Apply(old(Contents()), ws[..i], Enrolled)
        invariant Endpoint() == old(Endpoint()) && permissions == old(permissions)
      {
        assert ws[..i + 1][..i] == ws[..i];
        workers := workers[ws[i].id := ws[i]];
      }
      assert ws[..|ws|] == ws;
    }

    /** `insertShift` for each shift in turn. */
    method CacheAll(xs: seq<Shift>)
      modifies this
      ensures Contents() == Apply(old(Contents()), xs, Cached)
      ensures Endpoint() == old(Endpoint()) && permissions == old(permissions)
    {
      for i := 0 to |xs|
        invariant Contents() == Apply(old(Contents()), xs[..i], Cached)
        invariant Endpoint() == old(Endpoint()) && permissions == old(permissions)
      {
        assert xs[..i + 1][..i] == xs[..i];
        InsertShift(xs[i]);
      }
      assert xs[..|xs|] == xs;
    }

    /** `onAuthorize`: the reply's permissions replace the held ones. */
    method OnAuthorize(p: Payload)
      requires p.AuthorizeReply?
      modifies this
      ensures (Contents(), permissions) == Handled(old(Contents()), old(permissions), p)
      ensures Endpoint() == old(Endpoint())
    {
      permissions := p.permissions as bv16;
    }

    /** `onDeleteShift`. */
    method OnDeleteShift(p: Payload)
      requires p.DeleteShiftReply?
      modifies this
      ensures (Contents(), permissions) == Handled(old(Contents()), old(permissions), p)
      ensures Endpoint() == old(Endpoint())
    {
      if p.reply.success {
        DeleteShift(p.id);
      }
    }

    /** `onGetShiftsByDay`: every shift of the reply, in ascending order. */
    method OnGetShiftsByDay(p: Payload)
      requires p.GetShiftsReply?
      modifies this
      ensures (Contents(), permissions) == Handled(old(Contents()), old(permissions), p)
      ensures Endpoint() == old(Endpoint())
    {
      ShiftLessTotal();
      CacheAll(Sorted(p.shifts, ShiftLess));
    }

    /** `onGetWorkers`. */
    method OnGetWorkers(p: Payload)
      requires p.GetWorkersReply?
      modifies this
      ensures (Contents(), permissions) == Handled(old(Contents()), old(permissions), p)
      ensures Endpoint() == old(Endpoint())
    {
      workers := Merge(workers, p.workers);
    }

    /** `onInsertShift`. */
    method OnInsertShift(p: Payload)
      requires p.InsertShiftReply?
      modifies this
      ensures (Contents(), permissions) == Handled(old(Contents()), old(permissions), p)
      ensures Endpoint() == old(Endpoint())
    {
      if p.reply.success {
        InsertShift(p.shift);
      }
    }

    /** `onInsertWorker`. */
    method OnInsertWorker(p: Payload)
      requires p.InsertWorkerReply?
      modifies this
      ensures (Contents(), permissions) == Handled(old(Contents()), old(permissions), p)
      ensures Endpoint() == old(Endpoint())
    {
      if p.reply.success {
        workers := workers[p.worker.id := p.worker];
      }
    }

    /** `onDeleteWorker`: unlike `deleteWorker`, the shifts are released even when the worker was not cached. */
    method OnDeleteWorker(p: Payload)
      requires p.DeleteWorkerReply?
      modifies this
      ensures (Contents(), permissions) == Handled(old(Contents()), old(permissions), p)
      ensures Endpoint() == old(Endpoint())
    {
      if p.reply.success {
        workers := workers - {p.id};
        shifts := Unassign(shifts, p.id);
      }
    }

    /** `onSync`: removed shifts, removed workers, changed workers, changed shifts, each set in ascending order. */
    method OnSync(p: Payload)
      requires p.ClientSync?
      modifies this
      ensures (Contents(), permissions) == Handled(old(Contents()), old(permissions), p)
      ensures Endpoint() == old(Endpoint())
    {
      U64LessTotal();
      WorkerLessTotal();
      ShiftLessTotal();
      DropAll(Sorted(p.removedShifts, U64Less));
      ForgetAll(Sorted(p.removedWorkers, U64Less));
      PutAll(Sorted(p.changedWorkers, WorkerLess));
      CacheAll(Sorted(p.changedShifts, ShiftLess));
    }

    /** The handler `cb`, registered for the payload's class, run on the payload. */
    method Invoke(cb: Callback, p: Payload)
      requires Handles(p) && cb == HandlerOf(p)
      modifies this
      ensures (Contents(), permissions) == Handled(old(Contents()), old(permissions), p)
      ensures Endpoint() == old(Endpoint())
    {
      match p
      case AuthorizeReply(_, _) => OnAuthorize(p);
      case DeleteShiftReply(_, _) => OnDeleteShift(p);
      case GetShiftsReply(_, _, _) => OnGetShiftsByDay(p);
      case GetWorkersReply(_, _) => OnGetWorkers(p);
      case InsertShiftReply(_, _) => OnInsertShift(p);
      case InsertWorkerReply(_, _) => OnInsertWorker(p);
      case DeleteWorkerReply(_, _) => OnDeleteWorker(p);
      case ClientSync(_, _, _, _) => OnSync(p);
    }

    /**
     * A payload the connection delivers to the client: its observer part
     * looks up the handlers under the payload's tag and each one runs.  A
     * handled payload runs exactly its own handler; any other is ignored.
     */
    method OnPayloadReceived(p: Payload, size: nat) returns (calls: seq<Call>)
      requires Valid()
      modifies this
      ensures Valid()
      ensures calls == Dispatch(HandlerTable(), p, size)
      ensures Handles(p) ==> (Contents(), permissions) == Handled(old(Contents()), old(permissions), p)
      ensures !Handles(p) ==> Contents() == old(Contents()) && permissions == old(permissions)
      ensures Endpoint() == old(Endpoint())
    {
      calls := observer.OnPayloadReceived(p, size);
      HandlerTableDispatch(p, size);
      if calls != [] {
        Invoke(calls[0].callback, p);
      }
    }
  }
}
