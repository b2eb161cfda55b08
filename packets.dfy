/**
 * The packets exchanged between client and server, and the model types that
 * can travel on their own (`Date`, `DateTime`, `Shift`, `ShiftWorker`).
 *
 * C++ packets are value types whose every field `deserialize` overwrites, so
 * each class is one constructor of `Payload`, and `deserialize` on a freshly
 * default-constructed receiver is a function from the stream to a `Payload`.
 * The base classes `TrackablePacket` and `TransactionReply` have no instances
 * of their own; their parts are written with the tag of the derived class.
 */
module Packets {
  import opened Wire
  import opened Errors
  import opened Binary
  import opened Ordering
  import opened Registry
  import opened Serial
  import opened Models
  import opened Calendar
  import opened Schedule

  // ------------------------------------------------------ TrackablePacket

  /** `TrackablePacket::serialize`: the derived class's tag, then the 4-byte `requestId`. */
  function TrackOps(own: Tag, requestId: Int32): seq<WriteOp>
  {
    TagOps(own) + I32Ops(requestId)
  }

  /** `TrackablePacket::deserialize`: the tag check, then the id. */
  function DecodeTrack(own: Tag, r: Reader): (o: Decoded<Int32>)
    ensures !r.good ==> o == Threw(RuntimeError(BadStream), r)
  {
    var t :- CheckTag(own, r);
    ReadI32(t.1)
  }

  /** The id reads back under the writer's own tag, and under no other. */
  lemma {:induction false} TrackRoundTrip(own: Tag, written: Tag, requestId: Int32, tail: seq<byte>)
    requires own < 128
    ensures DecodeTrack(own, Reader(Flatten(TrackOps(written, requestId)) + tail, true)).Done? <==> written == own
    ensures written == own ==>
              DecodeTrack(own, Reader(Flatten(TrackOps(written, requestId)) + tail, true))
              == Done(requestId, Reader(tail, true))
  {
    var r1 := Flatten(I32Ops(requestId)) + tail;
    FlattenThen(TagOps(written), I32Ops(requestId), tail);
    TagRoundTrip(own, written, r1);
    I32RoundTrip(requestId, tail);
  }

  // ----------------------------------------------------- TransactionReply

  /** The fields of the `TransactionReply` part of a reply. */
  datatype Reply = Reply(requestId: Int32, success: bool, errorMsg: ByteString)

  /** `TransactionReply(requestId)`: a successful reply with no message. */
  function SucceededReply(requestId: Int32): (p: Reply)
    ensures p.requestId == requestId && p.success && p.errorMsg == []
  {
    Reply(requestId, true, [])
  }

  /** `TransactionReply(requestId, msg)`: a failed reply carrying the message. */
  function FailedReply(requestId: Int32, msg: ByteString): (p: Reply)
    ensures p.requestId == requestId && !p.success && p.errorMsg == msg
  {
    Reply(requestId, false, msg)
  }

  /** The default `TransactionReply()`. */
  const DefaultReply: Reply := SucceededReply(0)

  /** `setSuccess`: the flag changes, the message stays. */
  function SetSuccess(p: Reply, success: bool): (q: Reply)
    ensures q.success == success && q.errorMsg == p.errorMsg && q.requestId == p.requestId
  {
    p.(success := success)
  }

  /** `setErrorMsg`: `setSuccess(false)`, then the message. */
  function SetErrorMsg(p: Reply, msg: ByteString): (q: Reply)
    ensures !q.success && q.errorMsg == msg && q.requestId == p.requestId
  {
    SetSuccess(p, false).(errorMsg := msg)
  }

  /** Failing a successful reply gives the reply the failure constructor builds, and undoing the failure keeps the message. */
  lemma ReplySetters(requestId: Int32, msg: ByteString)
    ensures SetErrorMsg(SucceededReply(requestId), msg) == FailedReply(requestId, msg)
    ensures SetSuccess(FailedReply(requestId, msg), true) == Reply(requestId, true, msg)
    ensures SetErrorMsg(FailedReply(requestId, msg), msg) == FailedReply(requestId, msg)
  {
  }

  /** `TransactionReply::serialize`: the trackable part, the success byte, the message as a string. */
  function ReplyOps(own: Tag, p: Reply): seq<WriteOp>
  {
    TrackOps(own, p.requestId) + BoolOps(p.success) + StrOps(p.errorMsg)
  }

  /** `TransactionReply::deserialize`. */
  function DecodeReply(own: Tag, r: Reader): (o: Decoded<Reply>)
    ensures !r.good ==> o == Threw(RuntimeError(BadStream), r)
  {
    var id :- DecodeTrack(own, r);
    var s :- ReadBool(id.1);
    var m :- ReadStr(s.1);
    Done(Reply(id.0, s.0, m.0), m.1)
  }

  /** Every reply part reads back under the writer's own tag, and under no other. */
  lemma {:induction false} ReplyRoundTrip(own: Tag, written: Tag, p: Reply, tail: seq<byte>)
    requires own < 128
    ensures DecodeReply(own, Reader(Flatten(ReplyOps(written, p)) + tail, true)).Done? <==> written == own
    ensures written == own ==>
              DecodeReply(own, Reader(Flatten(ReplyOps(written, p)) + tail, true)) == Done(p, Reader(tail, true))
  {
    var r2 := Flatten(StrOps(p.errorMsg)) + tail;
    var r1 := Flatten(BoolOps(p.success)) + r2;
    FlattenThen(TrackOps(written, p.requestId) + BoolOps(p.success), StrOps(p.errorMsg), tail);
    FlattenThen(TrackOps(written, p.requestId), BoolOps(p.success), r2);
    TrackRoundTrip(own, written, p.requestId, r1);
    BoolRoundTrip(p.success, r2);
    StrRoundTrip(p.errorMsg, tail);
  }

  // -------------------------------------------------------------- payloads

  /** One constructor per class that `register_models` gives a constructor, with that class's fields. */
  datatype Payload =
    | Ping
    | PingReply
    | DateValue(date: Date)
    | DateTimeValue(time: DateTime)
    | ShiftValue(shift: Shift)
    | WorkerValue(worker: ShiftWorker)
    | Authorize(requestId: Int32, token: ByteString)
    | AuthorizeReply(reply: Reply, permissions: U16)
    | GetShiftsByDay(requestId: Int32, date: Date)
    | GetShiftsReply(reply: Reply, date: Date, shifts: set<Shift>)
    | InsertShift(requestId: Int32, shift: Shift, modifying: bool)
    | InsertShiftReply(reply: Reply, shift: Shift)
    | DeleteShift(requestId: Int32, shiftId: U64)
    | DeleteShiftReply(reply: Reply, id: U64)
    | GetWorkers(requestId: Int32)
    | GetWorkersReply(reply: Reply, workers: map<U64, ShiftWorker>)
    | InsertWorker(requestId: Int32, worker: ShiftWorker, modifying: bool)
    | InsertWorkerReply(reply: Reply, worker: ShiftWorker)
    | DeleteWorker(requestId: Int32, workerId: U64)
    | DeleteWorkerReply(reply: Reply, id: U64)
    | ClientSync(removedWorkers: set<U64>, removedShifts: set<U64>,
                 changedWorkers: set<ShiftWorker>, changedShifts: set<Shift>)

  /** `getType()`: each class's own tag. */
  function TagOf(p: Payload): (t: PayloadClass)
  {
    match p
    case Ping => TagPing
    case PingReply => TagPingReply
    case DateValue(_) => TagDate
    case DateTimeValue(_) => TagDateTime
    case ShiftValue(_) => TagShift
    case WorkerValue(_) => TagShiftWorker
    case Authorize(_, _) => TagC2SAuthorize
    case AuthorizeReply(_, _) => TagS2CAuthorizeReply
    case GetShiftsByDay(_, _) => TagC2SGetShiftsByDay
    case GetShiftsReply(_, _, _) => TagS2CGetShiftsReply
    case InsertShift(_, _, _) => TagC2SInsertShift
    case InsertShiftReply(_, _) => TagS2CInsertShiftReply
    case DeleteShift(_, _) => TagC2SDeleteShift
    case DeleteShiftReply(_, _) => TagS2CDeleteShiftReply
    case GetWorkers(_) => TagC2SGetWorkers
    case GetWorkersReply(_, _) => TagS2CGetWorkersReply
    case InsertWorker(_, _, _) => TagC2SInsertWorker
    case InsertWorkerReply(_, _) => TagS2CInsertWorkerReply
    case DeleteWorker(_, _) => TagC2SDeleteWorker
    case DeleteWorkerReply(_, _) => TagS2CDeleteWorkerReply
    case ClientSync(_, _, _, _) => TagS2CClientSync
  }

  /** The packets derived from `TrackablePacket`: the requests and the replies. */
  predicate IsTrackable(p: Payload)
  {
    p.Authorize? || p.GetShiftsByDay? || p.InsertShift? || p.DeleteShift? || p.GetWorkers? ||
    p.InsertWorker? || p.DeleteWorker? || IsReply(p)
  }

  /** The packets derived from `TransactionReply`. */
  predicate IsReply(p: Payload)
  {
    p.AuthorizeReply? || p.GetShiftsReply? || p.InsertShiftReply? || p.DeleteShiftReply? ||
    p.GetWorkersReply? || p.InsertWorkerReply? || p.DeleteWorkerReply?
  }

  /** `getRequestId()`. */
  function RequestId(p: Payload): Int32
    requires IsTrackable(p)
  {
    if IsReply(p) then p.reply.requestId else p.requestId
  }

  /** `setRequestId(id)`: only the id changes. */
  function WithRequestId(p: Payload, requestId: Int32): (q: Payload)
    requires IsTrackable(p)
    ensures IsTrackable(q) && RequestId(q) == requestId && TagOf(q) == TagOf(p)
  {
    if IsReply(p) then p.(reply := p.reply.(requestId := requestId)) else p.(requestId := requestId)
  }

  /** Setting the id changes nothing else: putting the old id back restores the packet. */
  lemma RequestIdOnly(p: Payload, requestId: Int32)
    requires IsTrackable(p)
    ensures WithRequestId(WithRequestId(p, requestId), RequestId(p)) == p
    ensures WithRequestId(p, RequestId(p)) == p
  {
  }

  /** The instance each class's default constructor builds. */
  function Default(c: PayloadClass): (p: Payload)
    ensures TagOf(p) == c
  {
    if c == TagPing then Ping
    else if c == TagPingReply then PingReply
    else if c == TagDate then DateValue(DefaultDate)
    else if c == TagDateTime then DateTimeValue(DefaultDateTime)
    else if c == TagShift then ShiftValue(DefaultShift)
    else if c == TagShiftWorker then WorkerValue(DefaultWorker)
    else if c == TagC2SAuthorize then Authorize(0, [])
    else if c == TagS2CAuthorizeReply then AuthorizeReply(DefaultReply, 0)
    else if c == TagC2SGetShiftsByDay then GetShiftsByDay(0, DefaultDate)
    else if c == TagS2CGetShiftsReply then GetShiftsReply(DefaultReply, DefaultDate, {})
    else if c == TagC2SInsertShift then InsertShift(0, DefaultShift, false)
    else if c == TagS2CInsertShiftReply then InsertShiftReply(DefaultReply, DefaultShift)
    else if c == TagC2SDeleteShift then DeleteShift(0, 0)
    else if c == TagS2CDeleteShiftReply then DeleteShiftReply(DefaultReply, 0)
    else if c == TagC2SGetWorkers then GetWorkers(0)
    else if c == TagS2CGetWorkersReply then GetWorkersReply(DefaultReply, map[])
    else if c == TagC2SInsertWorker then InsertWorker(0, DefaultWorker, false)
    else if c == TagS2CInsertWorkerReply then InsertWorkerReply(DefaultReply, DefaultWorker)
    else if c == TagC2SDeleteWorker then DeleteWorker(0, 0)
    else if c == TagS2CDeleteWorkerReply then DeleteWorkerReply(DefaultReply, 0)
    else
      assert Constructible(c);
      assert TagDate <= c <= TagS2CClientSync;
      assert c == TagS2CClientSync;
      ClientSync({}, {}, {}, {})
  }

  // --------------------------------------------------------------- writing

  /** `write_set_typed<Shift>`: shifts in `operator<` order. */
  function ShiftSetOps(s: set<Shift>): seq<WriteOp>
  {
    ShiftLessTotal();
    SetTypedOps(s, ShiftLess, ShiftOps)
  }

  /** `write_set_typed<ShiftWorker>`: workers in `operator<` order. */
  function WorkerSetOps(s: set<ShiftWorker>): seq<WriteOp>
  {
    WorkerLessTotal();
    SetTypedOps(s, WorkerLess, WorkerOps)
  }

  /** The (key, worker) pairs of a worker map, for the keys in the order given. */
  function EntriesOps(keys: seq<U64>, m: map<U64, ShiftWorker>): seq<WriteOp>
    requires forall k :: k in keys ==> k in m
  {
    if keys == [] then [] else U64Ops(keys[0]) + WorkerOps(m[keys[0]]) + EntriesOps(keys[1..], m)
  }

  /** The keys of a `std::map` in its iteration order, ascending. */
  function SortedKeys(m: map<U64, ShiftWorker>): (keys: seq<U64>)
    ensures |keys| == |m|
    ensures forall k :: k in keys <==> k in m
    ensures forall i, j :: 0 <= i < j < |keys| ==> keys[i] < keys[j]
  {
    U64LessTotal();
    var keys := Sorted(m.Keys, U64Less);
    assert |m.Keys| == |m|;
    keys
  }

  /** `S2C_GetWorkersReply::serialize` after the reply part: the count, then the pairs in ascending key order. */
  function WorkerMapOps(m: map<U64, ShiftWorker>): seq<WriteOp>
  {
    [Checked(LE(|m|, SIZE_T))] + EntriesOps(SortedKeys(m), m)
  }

  function AuthorizeOps(requestId: Int32, token: ByteString): seq<WriteOp>
  {
    TrackOps(TagC2SAuthorize, requestId) + StrOps(token)
  }

  function AuthorizeReplyOps(rp: Reply, permissions: U16): seq<WriteOp>
  {
    ReplyOps(TagS2CAuthorizeReply, rp) + U16Ops(permissions)
  }

  /** The nested date is written by `Date::serialize` on a `Date` member, so with the tag `_Date`. */
  function GetShiftsByDayOps(requestId: Int32, d: Date): seq<WriteOp>
  {
    TrackOps(TagC2SGetShiftsByDay, requestId) + DateOps(d, TagDate)
  }

  function GetShiftsReplyOps(rp: Reply, d: Date, ss: set<Shift>): seq<WriteOp>
  {
    ReplyOps(TagS2CGetShiftsReply, rp) + DateOps(d, TagDate) + ShiftSetOps(ss)
  }

  function InsertShiftOps(requestId: Int32, s: Shift, modifying: bool): seq<WriteOp>
  {
    TrackOps(TagC2SInsertShift, requestId) + ShiftOps(s) + BoolOps(modifying)
  }

  function InsertShiftReplyOps(rp: Reply, s: Shift): seq<WriteOp>
  {
    ReplyOps(TagS2CInsertShiftReply, rp) + ShiftOps(s)
  }

  /** `C2S_DeleteShift` and `C2S_DeleteWorker`: the trackable part, then one identifier. */
  function IdRequestOps(own: Tag, requestId: Int32, x: U64): seq<WriteOp>
  {
    TrackOps(own, requestId) + U64Ops(x)
  }

  /** `S2C_DeleteShiftReply` and `S2C_DeleteWorkerReply`: the reply part, then one identifier. */
  function IdReplyOps(own: Tag, rp: Reply, x: U64): seq<WriteOp>
  {
    ReplyOps(own, rp) + U64Ops(x)
  }

  function GetWorkersReplyOps(rp: Reply, ws: map<U64, ShiftWorker>): seq<WriteOp>
  {
    ReplyOps(TagS2CGetWorkersReply, rp) + WorkerMapOps(ws)
  }

  function InsertWorkerOps(requestId: Int32, w: ShiftWorker, modifying: bool): seq<WriteOp>
  {
    TrackOps(TagC2SInsertWorker, requestId) + WorkerOps(w) + BoolOps(modifying)
  }

  function InsertWorkerReplyOps(rp: Reply, w: ShiftWorker): seq<WriteOp>
  {
    ReplyOps(TagS2CInsertWorkerReply, rp) + WorkerOps(w)
  }

  /** `S2C_ClientSync::serialize`: not trackable; removed workers, removed shifts, changed shifts, changed workers. */
  function ClientSyncOps(rw: set<U64>, rs: set<U64>, cw: set<ShiftWorker>, cs: set<Shift>): seq<WriteOp>
  {
    TagOps(TagS2CClientSync) + SetPrimitiveOps(rw) + SetPrimitiveOps(rs) + ShiftSetOps(cs) + WorkerSetOps(cw)
  }

  /** `serialize` of each class. */
  function Encode(p: Payload): seq<WriteOp>
  {
    match p
    case Ping => TagOps(TagPing)
    case PingReply => TagOps(TagPingReply)
    case DateValue(d) => DateOps(d, TagDate)
    case DateTimeValue(t) => DateTimeOps(t, TagDateTime)
    case ShiftValue(s) => ShiftOps(s)
    case WorkerValue(w) => WorkerOps(w)
    case Authorize(id, token) => AuthorizeOps(id, token)
    case AuthorizeReply(rp, perms) => AuthorizeReplyOps(rp, perms)
    case GetShiftsByDay(id, d) => GetShiftsByDayOps(id, d)
    case GetShiftsReply(rp, d, ss) => GetShiftsReplyOps(rp, d, ss)
    case InsertShift(id, s, modifying) => InsertShiftOps(id, s, modifying)
    case InsertShiftReply(rp, s) => InsertShiftReplyOps(rp, s)
    case DeleteShift(id, sid) => IdRequestOps(TagC2SDeleteShift, id, sid)
    case DeleteShiftReply(rp, sid) => IdReplyOps(TagS2CDeleteShiftReply, rp, sid)
    case GetWorkers(id) => TrackOps(TagC2SGetWorkers, id)
    case GetWorkersReply(rp, ws) => GetWorkersReplyOps(rp, ws)
    case InsertWorker(id, w, modifying) => InsertWorkerOps(id, w, modifying)
    case InsertWorkerReply(rp, w) => InsertWorkerReplyOps(rp, w)
    case DeleteWorker(id, wid) => IdRequestOps(TagC2SDeleteWorker, id, wid)
    case DeleteWorkerReply(rp, wid) => IdReplyOps(TagS2CDeleteWorkerReply, rp, wid)
    case ClientSync(rw, rs, cw, cs) => ClientSyncOps(rw, rs, cw, cs)
  }

  // ------------------------------------------------------- nested reading

  /**
   * `new_instance<Date>(source)` and `deserialize` on it, keeping the `Date`
   * part (`_date = *date`).  A `DateTime` instance reads its time too; the
   * registry never yields any other class for base `Date`, and a failed
   * `dynamic_pointer_cast` would leave a null pointer.
   */
  function DecodeNestedDate(r: Reader): (o: Decoded<Date>)
    ensures o.Done? ==> ValidDate(o.value)
  {
    var c :- NewInstanceFrom(ModelTypes(), TagDate, r);
    if c.0 == TagDate then DecodeDate(DefaultDate, TagDate, c.1)
    else if c.0 == TagDateTime then
      var t :- DecodeDateTime(DefaultDateTime, TagDateTime, c.1);
      Done(GetDate(t.0), t.1)
    else Threw(Undefined("null Date instance"), c.1)
  }

  /** `get_instance<Shift>`: `new_instance<Shift>` then `deserialize` on the default shift. */
  function DecodeNestedShift(r: Reader): (o: Decoded<Shift>)
    ensures o.Done? ==> ValidShift(o.value)
  {
    var c :- NewInstanceFrom(ModelTypes(), TagShift, r);
    if c.0 == TagShift then DecodeShift(DefaultShift, c.1)
    else Threw(Undefined("null Shift instance"), c.1)
  }

  /** `get_instance<ShiftWorker>`. */
  function DecodeNestedWorker(r: Reader): Decoded<ShiftWorker>
  {
    var c :- NewInstanceFrom(ModelTypes(), TagShiftWorker, r);
    if c.0 == TagShiftWorker then DecodeWorker(DefaultWorker, c.1)
    else Threw(Undefined("null ShiftWorker instance"), c.1)
  }

  /** The loop of `S2C_GetWorkersReply::deserialize`: each pair assigns `_workers[id]`, a repeated key overwriting. */
  function ParseWorkers(r: Reader, count: nat, acc: map<U64, ShiftWorker>): (o: Decoded<map<U64, ShiftWorker>>)
    ensures o.Done? ==> acc.Keys <= o.value.Keys
    decreases count
  {
    if count == 0 then Done(acc, r)
    else
      var k :- ReadU64(r);
      var w :- DecodeNestedWorker(k.1);
      ParseWorkers(w.1, count - 1, acc[k.0 := w.0])
  }

  /** `S2C_GetWorkersReply::deserialize` after the reply part: `_workers.clear()`, the count, the pairs. */
  function ParseWorkerMap(r: Reader): (o: Decoded<map<U64, ShiftWorker>>)
    ensures !r.good ==> o == Threw(RuntimeError(BadStream), r)
  {
    var n :- ReadUInt(r, SIZE_T);
    ParseWorkers(n.1, n.0, map[])
  }

  // ------------------------------------------------------- class decoders

  function DecodePing(own: Tag, r: Reader): (o: Decoded<Payload>)
    requires own == TagPing || own == TagPingReply
    ensures o.Done? ==> o.value == if own == TagPing then Ping else PingReply
    ensures !r.good ==> o == Threw(RuntimeError(BadStream), r)
  {
    var t :- CheckTag(own, r);
    Done(if own == TagPing then Ping else PingReply, t.1)
  }

  function DecodeAuthorize(r: Reader): (o: Decoded<Payload>)
    ensures o.Done? ==> o.value.Authorize?
    ensures !r.good ==> o == Threw(RuntimeError(BadStream), r)
  {
    var id :- DecodeTrack(TagC2SAuthorize, r);
    var token :- ReadStr(id.1);
    Done(Authorize(id.0, token.0), token.1)
  }

  function DecodeAuthorizeReply(r: Reader): (o: Decoded<Payload>)
    ensures o.Done? ==> o.value.AuthorizeReply?
    ensures !r.good ==> o == Threw(RuntimeError(BadStream), r)
  {
    var rp :- DecodeReply(TagS2CAuthorizeReply, r);
    var perms :- ReadU16(rp.1);
    Done(AuthorizeReply(rp.0, perms.0), perms.1)
  }

  function DecodeGetShiftsByDay(r: Reader): (o: Decoded<Payload>)
    ensures o.Done? ==> o.value.GetShiftsByDay?
    ensures !r.good ==> o == Threw(RuntimeError(BadStream), r)
  {
    var id :- DecodeTrack(TagC2SGetShiftsByDay, r);
    var d :- DecodeNestedDate(id.1);
    Done(GetShiftsByDay(id.0, d.0), d.1)
  }

  function DecodeGetShiftsReply(r: Reader): (o: Decoded<Payload>)
    ensures o.Done? ==> o.value.GetShiftsReply?
    ensures !r.good ==> o == Threw(RuntimeError(BadStream), r)
  {
    var rp :- DecodeReply(TagS2CGetShiftsReply, r);
    var d :- DecodeNestedDate(rp.1);
    var ss :- ParseSet(d.1, DecodeNestedShift);
    Done(GetShiftsReply(rp.0, d.0, ss.0), ss.1)
  }

  function DecodeInsertShift(r: Reader): (o: Decoded<Payload>)
    ensures o.Done? ==> o.value.InsertShift?
    ensures !r.good ==> o == Threw(RuntimeError(BadStream), r)
  {
    var id :- DecodeTrack(TagC2SInsertShift, r);
    var s :- DecodeNestedShift(id.1);
    var m :- ReadBool(s.1);
    Done(InsertShift(id.0, s.0, m.0), m.1)
  }

  function DecodeInsertShiftReply(r: Reader): (o: Decoded<Payload>)
    ensures o.Done? ==> o.value.InsertShiftReply?
    ensures !r.good ==> o == Threw(RuntimeError(BadStream), r)
  {
    var rp :- DecodeReply(TagS2CInsertShiftReply, r);
    var s :- DecodeNestedShift(rp.1);
    Done(InsertShiftReply(rp.0, s.0), s.1)
  }

  /** `C2S_DeleteShift`, `C2S_DeleteWorker`: a request carrying one identifier. */
  function DecodeIdRequest(own: Tag, r: Reader): (o: Decoded<Payload>)
    requires own == TagC2SDeleteShift || own == TagC2SDeleteWorker
    ensures o.Done? ==> if own == TagC2SDeleteShift then o.value.DeleteShift? else o.value.DeleteWorker?
    ensures !r.good ==> o == Threw(RuntimeError(BadStream), r)
  {
    var id :- DecodeTrack(own, r);
    var x :- ReadU64(id.1);
    Done(if own == TagC2SDeleteShift then DeleteShift(id.0, x.0) else DeleteWorker(id.0, x.0), x.1)
  }

  /** `S2C_DeleteShiftReply`, `S2C_DeleteWorkerReply`: a reply carrying one identifier. */
  function DecodeIdReply(own: Tag, r: Reader): (o: Decoded<Payload>)
    requires own == TagS2CDeleteShiftReply || own == TagS2CDeleteWorkerReply
    ensures o.Done? ==> if own == TagS2CDeleteShiftReply then o.value.DeleteShiftReply? else o.value.DeleteWorkerReply?
    ensures !r.good ==> o == Threw(RuntimeError(BadStream), r)
  {
    var rp :- DecodeReply(own, r);
    var x :- ReadU64(rp.1);
    Done(if own == TagS2CDeleteShiftReply then DeleteShiftReply(rp.0, x.0) else DeleteWorkerReply(rp.0, x.0), x.1)
  }

  function DecodeGetWorkers(r: Reader): (o: Decoded<Payload>)
    ensures o.Done? ==> o.value.GetWorkers?
    ensures !r.good ==> o == Threw(RuntimeError(BadStream), r)
  {
    var id :- DecodeTrack(TagC2SGetWorkers, r);
    Done(GetWorkers(id.0), id.1)
  }

  function DecodeGetWorkersReply(r: Reader): (o: Decoded<Payload>)
    ensures o.Done? ==> o.value.GetWorkersReply?
    ensures !r.good ==> o == Threw(RuntimeError(BadStream), r)
  {
    var rp :- DecodeReply(TagS2CGetWorkersReply, r);
    var ws :- ParseWorkerMap(rp.1);
    Done(GetWorkersReply(rp.0, ws.0), ws.1)
  }

  function DecodeInsertWorker(r: Reader): (o: Decoded<Payload>)
    ensures o.Done? ==> o.value.InsertWorker?
    ensures !r.good ==> o == Threw(RuntimeError(BadStream), r)
  {
    var id :- DecodeTrack(TagC2SInsertWorker, r);
    var w :- DecodeNestedWorker(id.1);
    var m :- ReadBool(w.1);
    Done(InsertWorker(id.0, w.0, m.0), m.1)
  }

  function DecodeInsertWorkerReply(r: Reader): (o: Decoded<Payload>)
    ensures o.Done? ==> o.value.InsertWorkerReply?
    ensures !r.good ==> o == Threw(RuntimeError(BadStream), r)
  {
    var rp :- DecodeReply(TagS2CInsertWorkerReply, r);
    var w :- DecodeNestedWorker(rp.1);
    Done(InsertWorkerReply(rp.0, w.0), w.1)
  }

  function DecodeClientSync(r: Reader): (o: Decoded<Payload>)
    ensures o.Done? ==> o.value.ClientSync?
    ensures !r.good ==> o == Threw(RuntimeError(BadStream), r)
  {
    var t :- CheckTag(TagS2CClientSync, r);
    var rw :- ParseSetPrimitive(t.1);
    var rs :- ParseSetPrimitive(rw.1);
    var cs :- ParseSet(rs.1, DecodeNestedShift);
    var cw :- ParseSet(cs.1, DecodeNestedWorker);
    Done(ClientSync(rw.0, rs.0, cw.0, cs.0), cw.1)
  }

  function DecodePingRequest(r: Reader): (o: Decoded<Payload>)
    ensures o.Done? ==> o.value.Ping?
    ensures !r.good ==> o == Threw(RuntimeError(BadStream), r)
  {
    DecodePing(TagPing, r)
  }

  function DecodePingReply(r: Reader): (o: Decoded<Payload>)
    ensures o.Done? ==> o.value.PingReply?
    ensures !r.good ==> o == Threw(RuntimeError(BadStream), r)
  {
    DecodePing(TagPingReply, r)
  }

  function DecodeDeleteShift(r: Reader): (o: Decoded<Payload>)
    ensures o.Done? ==> o.value.DeleteShift?
    ensures !r.good ==> o == Threw(RuntimeError(BadStream), r)
  {
    DecodeIdRequest(TagC2SDeleteShift, r)
  }

  function DecodeDeleteWorker(r: Reader): (o: Decoded<Payload>)
    ensures o.Done? ==> o.value.DeleteWorker?
    ensures !r.good ==> o == Threw(RuntimeError(BadStream), r)
  {
    DecodeIdRequest(TagC2SDeleteWorker, r)
  }

  function DecodeDeleteShiftReply(r: Reader): (o: Decoded<Payload>)
    ensures o.Done? ==> o.value.DeleteShiftReply?
    ensures !r.good ==> o == Threw(RuntimeError(BadStream), r)
  {
    DecodeIdReply(TagS2CDeleteShiftReply, r)
  }

  function DecodeDeleteWorkerReply(r: Reader): (o: Decoded<Payload>)
    ensures o.Done? ==> o.value.DeleteWorkerReply?
    ensures !r.good ==> o == Threw(RuntimeError(BadStream), r)
  {
    DecodeIdReply(TagS2CDeleteWorkerReply, r)
  }

  /** The registered classes that are not packets, read as a payload. */
  function DecodeDateValue(r: Reader): (o: Decoded<Payload>)
    ensures o.Done? ==> o.value.DateValue?
    ensures !r.good ==> o == Threw(RuntimeError(BadStream), r)
  {
    var d :- DecodeDate(DefaultDate, TagDate, r);
    Done(DateValue(d.0), d.1)
  }

  function DecodeDateTimeValue(r: Reader): (o: Decoded<Payload>)
    ensures o.Done? ==> o.value.DateTimeValue?
    ensures !r.good ==> o == Threw(RuntimeError(BadStream), r)
  {
    var t :- DecodeDateTime(DefaultDateTime, TagDateTime, r);
    Done(DateTimeValue(t.0), t.1)
  }

  function DecodeShiftValue(r: Reader): (o: Decoded<Payload>)
    ensures o.Done? ==> o.value.ShiftValue?
    ensures !r.good ==> o == Threw(RuntimeError(BadStream), r)
  {
    var s :- DecodeShift(DefaultShift, r);
    Done(ShiftValue(s.0), s.1)
  }

  function DecodeWorkerValue(r: Reader): (o: Decoded<Payload>)
    ensures o.Done? ==> o.value.WorkerValue?
    ensures !r.good ==> o == Threw(RuntimeError(BadStream), r)
  {
    var w :- DecodeWorker(DefaultWorker, r);
    Done(WorkerValue(w.0), w.1)
  }

  /**
   * The `deserialize` override of each class: the virtual call the runtime
   * type of a default-constructed instance selects.
   */
  function DeserializerOf(c: PayloadClass): (d: Reader -> Decoded<Payload>)
    ensures c == TagPing ==> d == DecodePingRequest
    ensures c == TagPingReply ==> d == DecodePingReply
    ensures c == TagDate ==> d == DecodeDateValue
    ensures c == TagDateTime ==> d == DecodeDateTimeValue
    ensures c == TagShift ==> d == DecodeShiftValue
    ensures c == TagShiftWorker ==> d == DecodeWorkerValue
    ensures c == TagC2SAuthorize ==> d == DecodeAuthorize
    ensures c == TagS2CAuthorizeReply ==> d == DecodeAuthorizeReply
    ensures c == TagC2SGetShiftsByDay ==> d == DecodeGetShiftsByDay
    ensures c == TagS2CGetShiftsReply ==> d == DecodeGetShiftsReply
    ensures c == TagC2SInsertShift ==> d == DecodeInsertShift
    ensures c == TagS2CInsertShiftReply ==> d == DecodeInsertShiftReply
    ensures c == TagC2SDeleteShift ==> d == DecodeDeleteShift
    ensures c == TagS2CDeleteShiftReply ==> d == DecodeDeleteShiftReply
    ensures c == TagC2SGetWorkers ==> d == DecodeGetWorkers
    ensures c == TagS2CGetWorkersReply ==> d == DecodeGetWorkersReply
    ensures c == TagC2SInsertWorker ==> d == DecodeInsertWorker
    ensures c == TagS2CInsertWorkerReply ==> d == DecodeInsertWorkerReply
    ensures c == TagC2SDeleteWorker ==> d == DecodeDeleteWorker
    ensures c == TagS2CDeleteWorkerReply ==> d == DecodeDeleteWorkerReply
    ensures c == TagS2CClientSync ==> d == DecodeClientSync
  {
    if c == TagPing then DecodePingRequest
    else if c == TagPingReply then DecodePingReply
    else if c == TagDate then DecodeDateValue
    else if c == TagDateTime then DecodeDateTimeValue
    else if c == TagShift then DecodeShiftValue
    else if c == TagShiftWorker then DecodeWorkerValue
    else if c == TagC2SAuthorize then DecodeAuthorize
    else if c == TagS2CAuthorizeReply then DecodeAuthorizeReply
    else if c == TagC2SGetShiftsByDay then DecodeGetShiftsByDay
    else if c == TagS2CGetShiftsReply then DecodeGetShiftsReply
    else if c == TagC2SInsertShift then DecodeInsertShift
    else if c == TagS2CInsertShiftReply then DecodeInsertShiftReply
    else if c == TagC2SDeleteShift then DecodeDeleteShift
    else if c == TagS2CDeleteShiftReply then DecodeDeleteShiftReply
    else if c == TagC2SGetWorkers then DecodeGetWorkers
    else if c == TagS2CGetWorkersReply then DecodeGetWorkersReply
    else if c == TagC2SInsertWorker then DecodeInsertWorker
    else if c == TagS2CInsertWorkerReply then DecodeInsertWorkerReply
    else if c == TagC2SDeleteWorker then DecodeDeleteWorker
    else if c == TagS2CDeleteWorkerReply then DecodeDeleteWorkerReply
    else DecodeClientSync
  }

  /** `deserialize` on a default-constructed instance of class c. */
  function DecodeAs(c: PayloadClass, r: Reader): Decoded<Payload>
  {
    DeserializerOf(c)(r)
  }


  /** `new_instance(source)` followed by the instance's own `deserialize`, as a receiver of any payload does. */
  function DecodePayload(r: Reader): Decoded<Payload>
  {
    var c :- NewAnyInstanceFrom(ModelTypes(), r);
    DecodeAs(c.0, c.1)
  }

  // ---------------------------------------------------- nested round trips

  /** A serializer whose first write is a tag puts that tag byte first. */
  lemma TagLeads(own: Tag, ops: seq<WriteOp>, tail: seq<byte>)
    requires |ops| > 0 && ops[0] == TagOps(own)[0]
    ensures Flatten(ops) + tail == [own] + (Flatten(ops[1..]) + tail)
  {
    TagOpsBytes(own);
    assert ops == TagOps(own) + ops[1..];
    FlattenThen(TagOps(own), ops[1..], tail);
  }

  /** A nested `Date` reads back exactly when it is valid. */
  lemma NestedDateRoundTrip(d: Date, tail: seq<byte>)
    ensures var o := DecodeNestedDate(Reader(Flatten(DateOps(d, TagDate)) + tail, true));
            (o == Done(d, Reader(tail, true)) <==> ValidDate(d)) &&
            (!ValidDate(d) ==> o.Threw? && o.error.InvalidArgument?)
  {
    TagLeads(TagDate, DateOps(d, TagDate), tail);
    NewDateInstance(TagDate);
    DateRoundTrip(DefaultDate, d, TagDate, tail);
  }

  /** Where a `Date` is expected, a whole valid `DateTime` is accepted and sliced to its date. */
  lemma NestedDateOfDateTime(t: DateTime, tail: seq<byte>)
    ensures var o := DecodeNestedDate(Reader(Flatten(DateTimeOps(t, TagDateTime)) + tail, true));
            (o == Done(t.date, Reader(tail, true)) <== ValidDateTime(t)) &&
            (!ValidDateTime(t) ==> o.Threw? && o.error.InvalidArgument?)
  {
    TagLeads(TagDateTime, DateTimeOps(t, TagDateTime), tail);
    NewDateInstance(TagDateTime);
    DateTimeRoundTrip(DefaultDateTime, t, TagDateTime, tail);
  }

  /** Any other leading tag is refused before a field is read. */
  lemma NestedDateRejects(b: byte, rest: seq<byte>)
    requires b != TagDate && b != TagDateTime
    ensures DecodeNestedDate(Reader([b] + rest, true)).Threw?
  {
    NewDateInstance(b);
  }

  /** A nested `Shift` reads back exactly when it is valid. */
  lemma NestedShiftRoundTrip(s: Shift, tail: seq<byte>)
    ensures var o := DecodeNestedShift(Reader(Flatten(ShiftOps(s)) + tail, true));
            (o == Done(s, Reader(tail, true)) <==> ValidShift(s)) &&
            (!ValidShift(s) ==> o.Threw? && o.error.InvalidArgument?)
  {
    TagLeads(TagShift, ShiftOps(s), tail);
    NewLeafInstance(TagShift, TagShift);
    ShiftRoundTrip(DefaultShift, s, tail);
  }

  /** `new_instance<Shift>` accepts no tag but `_Shift`. */
  lemma NestedShiftRejects(b: byte, rest: seq<byte>)
    requires b != TagShift
    ensures DecodeNestedShift(Reader([b] + rest, true)).Threw?
  {
    NewLeafInstance(TagShift, b);
  }

  /** Every nested `ShiftWorker` reads back. */
  lemma NestedWorkerRoundTrip(w: ShiftWorker, tail: seq<byte>)
    ensures DecodeNestedWorker(Reader(Flatten(WorkerOps(w)) + tail, true)) == Done(w, Reader(tail, true))
  {
    TagLeads(TagShiftWorker, WorkerOps(w), tail);
    NewLeafInstance(TagShiftWorker, TagShiftWorker);
    WorkerRoundTrip(DefaultWorker, w, tail);
  }

  /** `new_instance<ShiftWorker>` accepts no tag but `_ShiftWorker`. */
  lemma NestedWorkerRejects(b: byte, rest: seq<byte>)
    requires b != TagShiftWorker
    ensures DecodeNestedWorker(Reader([b] + rest, true)).Threw?
  {
    NewLeafInstance(TagShiftWorker, b);
  }

  /** A set of valid shifts survives `write_set_typed` / `read_set`. */
  lemma ShiftSetRoundTrip(ss: set<Shift>, tail: seq<byte>)
    requires |ss| < Pow256(SIZE_T)
    requires forall s :: s in ss ==> ValidShift(s)
    ensures ParseSet(Reader(Flatten(ShiftSetOps(ss)) + tail, true), DecodeNestedShift) == Done(ss, Reader(tail, true))
  {
    ShiftLessTotal();
    forall s | s in ss ensures Inverts(ShiftOps, DecodeNestedShift, s) {
      forall tl ensures DecodeNestedShift(Reader(Flatten(ShiftOps(s)) + tl, true)) == Done(s, Reader(tl, true)) {
        NestedShiftRoundTrip(s, tl);
      }
    }
    SetTypedRoundTrip(ss, ShiftLess, ShiftOps, DecodeNestedShift, tail);
  }

  /** Every set of workers survives `write_set_typed` / `read_set`. */
  lemma WorkerSetRoundTrip(ws: set<ShiftWorker>, tail: seq<byte>)
    requires |ws| < Pow256(SIZE_T)
    ensures ParseSet(Reader(Flatten(WorkerSetOps(ws)) + tail, true), DecodeNestedWorker) == Done(ws, Reader(tail, true))
  {
    WorkerLessTotal();
    forall w | w in ws ensures Inverts(WorkerOps, DecodeNestedWorker, w) {
      forall tl ensures DecodeNestedWorker(Reader(Flatten(WorkerOps(w)) + tl, true)) == Done(w, Reader(tl, true)) {
        NestedWorkerRoundTrip(w, tl);
      }
    }
    SetTypedRoundTrip(ws, WorkerLess, WorkerOps, DecodeNestedWorker, tail);
  }

  /** The pairs for keys, read back into acc, add exactly those keys with their workers. */
  lemma {:induction false} EntriesRoundTrip(keys: seq<U64>, m: map<U64, ShiftWorker>, acc: map<U64, ShiftWorker>,
                                            tail: seq<byte>)
    requires forall k :: k in keys ==> k in m
    ensures ParseWorkers(Reader(Flatten(EntriesOps(keys, m)) + tail, true), |keys|, acc)
         == Done(acc + Picked(keys, m), Reader(tail, true))
  {
    if keys == [] {
      assert Flatten(EntriesOps(keys, m)) + tail == tail;
      assert acc + Picked(keys, m) == acc;
    } else {
      EntryRoundTrip(keys, m, acc, tail);
      EntriesRoundTrip(keys[1..], m, acc[keys[0] := m[keys[0]]], tail);
      MapStep(keys, m, acc);
    }
  }

  /** The first entry is read back as its key and the worker stored under it. */
  lemma EntryRoundTrip(keys: seq<U64>, m: map<U64, ShiftWorker>, acc: map<U64, ShiftWorker>, tail: seq<byte>)
    requires |keys| > 0 && forall j :: j in keys ==> j in m
    ensures ParseWorkers(Reader(Flatten(EntriesOps(keys, m)) + tail, true), |keys|, acc)
         == ParseWorkers(Reader(Flatten(EntriesOps(keys[1..], m)) + tail, true), |keys| - 1, acc[keys[0] := m[keys[0]]])
  {
    var k := keys[0];
    var rest := Flatten(EntriesOps(keys[1..], m)) + tail;
    var r2 := Flatten(WorkerOps(m[k])) + rest;
    FlattenThen(U64Ops(k) + WorkerOps(m[k]), EntriesOps(keys[1..], m), tail);
    FlattenThen(U64Ops(k), WorkerOps(m[k]), rest);
    ReadU64RoundTrip(k, r2);
    NestedWorkerRoundTrip(m[k], rest);
    ParseWorkersStep(Reader(Flatten(EntriesOps(keys, m)) + tail, true), |keys|, acc,
                     k, Reader(r2, true), m[k], Reader(rest, true));
  }

  /** One entry of the map: its key, then the worker stored under it. */
  lemma ParseWorkersStep(r: Reader, count: nat, acc: map<U64, ShiftWorker>,
                         k: U64, r1: Reader, w: ShiftWorker, r2: Reader)
    requires count > 0 && ReadU64(r) == Done(k, r1) && DecodeNestedWorker(r1) == Done(w, r2)
    ensures ParseWorkers(r, count, acc) == ParseWorkers(r2, count - 1, acc[k := w])
  {
  }

  lemma MapStep(keys: seq<U64>, m: map<U64, ShiftWorker>, acc: map<U64, ShiftWorker>)
    requires |keys| > 0 && forall k :: k in keys ==> k in m
    ensures acc[keys[0] := m[keys[0]]] + Picked(keys[1..], m) == acc + Picked(keys, m)
  {
    assert forall j :: j in keys <==> j == keys[0] || j in keys[1..];
  }

  /** Every map from identifier to worker survives the reply's count-and-pairs layout, keys included. */
  lemma WorkerMapRoundTrip(m: map<U64, ShiftWorker>, tail: seq<byte>)
    requires |m| < Pow256(SIZE_T)
    ensures ParseWorkerMap(Reader(Flatten(WorkerMapOps(m)) + tail, true)) == Done(m, Reader(tail, true))
  {
    var keys := SortedKeys(m);
    var rest := Flatten(EntriesOps(keys, m)) + tail;
    FlattenThen([Checked(LE(|m|, SIZE_T))], EntriesOps(keys, m), tail);
    assert Flatten([Checked(LE(|m|, SIZE_T))]) == LE(|m|, SIZE_T);
    ReadUIntRoundTrip(|m|, SIZE_T, rest);
    EntriesRoundTrip(keys, m, map[], tail);
    MapOfKeys(keys, m);
  }

  /** The entries of m for the keys listed. */
  function Picked(keys: seq<U64>, m: map<U64, ShiftWorker>): (p: map<U64, ShiftWorker>)
    requires forall k :: k in keys ==> k in m
  {
    map k | k in keys :: m[k]
  }

  /** A map is rebuilt from any enumeration of its keys. */
  lemma MapOfKeys(keys: seq<U64>, m: map<U64, ShiftWorker>)
    requires forall k :: k in keys <==> k in m
    ensures map[] + Picked(keys, m) == m
  {
  }

  // ----------------------------------------------------- class round trips

  /**
   * `Ping` and `PingReply` are their tag byte alone; each reads back its own
   * byte and refuses the other's.
   */
  lemma PingRoundTrip(own: Tag, written: Tag, tail: seq<byte>)
    requires own == TagPing || own == TagPingReply
    requires written == TagPing || written == TagPingReply
    ensures var p := if own == TagPing then Ping else PingReply;
            var o := DecodePing(own, Reader(Flatten(TagOps(written)) + tail, true));
            Flatten(TagOps(written)) == [written] &&
            (written == own ==> o == Done(p, Reader(tail, true))) &&
            (written != own ==> o.Threw?)
  {
    TagOpsBytes(written);
    TagRoundTrip(own, written, tail);
  }

  lemma AuthorizeRoundTrip(requestId: Int32, token: ByteString, tail: seq<byte>)
    ensures DecodeAuthorize(Reader(Flatten(AuthorizeOps(requestId, token)) + tail, true))
         == Done(Authorize(requestId, token), Reader(tail, true))
  {
    FlattenThen(TrackOps(TagC2SAuthorize, requestId), StrOps(token), tail);
    TrackRoundTrip(TagC2SAuthorize, TagC2SAuthorize, requestId, Flatten(StrOps(token)) + tail);
    StrRoundTrip(token, tail);
  }

  lemma AuthorizeReplyRoundTrip(rp: Reply, permissions: U16, tail: seq<byte>)
    ensures DecodeAuthorizeReply(Reader(Flatten(AuthorizeReplyOps(rp, permissions)) + tail, true))
         == Done(AuthorizeReply(rp, permissions), Reader(tail, true))
  {
    FlattenThen(ReplyOps(TagS2CAuthorizeReply, rp), U16Ops(permissions), tail);
    ReplyRoundTrip(TagS2CAuthorizeReply, TagS2CAuthorizeReply, rp, Flatten(U16Ops(permissions)) + tail);
    U16RoundTrip(permissions, tail);
  }

  lemma GetShiftsByDayRoundTrip(requestId: Int32, d: Date, tail: seq<byte>)
    requires ValidDate(d)
    ensures DecodeGetShiftsByDay(Reader(Flatten(GetShiftsByDayOps(requestId, d)) + tail, true))
         == Done(GetShiftsByDay(requestId, d), Reader(tail, true))
  {
    FlattenThen(TrackOps(TagC2SGetShiftsByDay, requestId), DateOps(d, TagDate), tail);
    TrackRoundTrip(TagC2SGetShiftsByDay, TagC2SGetShiftsByDay, requestId, Flatten(DateOps(d, TagDate)) + tail);
    NestedDateRoundTrip(d, tail);
  }

  lemma {:induction false} GetShiftsReplyRoundTrip(rp: Reply, d: Date, ss: set<Shift>, tail: seq<byte>)
    requires ValidDate(d) && |ss| < Pow256(SIZE_T)
    requires forall s :: s in ss ==> ValidShift(s)
    ensures DecodeGetShiftsReply(Reader(Flatten(GetShiftsReplyOps(rp, d, ss)) + tail, true))
         == Done(GetShiftsReply(rp, d, ss), Reader(tail, true))
  {
    var r2 := Flatten(ShiftSetOps(ss)) + tail;
    var r1 := Flatten(DateOps(d, TagDate)) + r2;
    FlattenThen(ReplyOps(TagS2CGetShiftsReply, rp) + DateOps(d, TagDate), ShiftSetOps(ss), tail);
    FlattenThen(ReplyOps(TagS2CGetShiftsReply, rp), DateOps(d, TagDate), r2);
    ReplyRoundTrip(TagS2CGetShiftsReply, TagS2CGetShiftsReply, rp, r1);
    NestedDateRoundTrip(d, r2);
    ShiftSetRoundTrip(ss, tail);
  }

  lemma {:induction false} InsertShiftRoundTrip(requestId: Int32, s: Shift, modifying: bool, tail: seq<byte>)
    requires ValidShift(s)
    ensures DecodeInsertShift(Reader(Flatten(InsertShiftOps(requestId, s, modifying)) + tail, true))
         == Done(InsertShift(requestId, s, modifying), Reader(tail, true))
  {
    var r2 := Flatten(BoolOps(modifying)) + tail;
    var r1 := Flatten(ShiftOps(s)) + r2;
    FlattenThen(TrackOps(TagC2SInsertShift, requestId) + ShiftOps(s), BoolOps(modifying), tail);
    FlattenThen(TrackOps(TagC2SInsertShift, requestId), ShiftOps(s), r2);
    TrackRoundTrip(TagC2SInsertShift, TagC2SInsertShift, requestId, r1);
    NestedShiftRoundTrip(s, r2);
    BoolRoundTrip(modifying, tail);
  }

  lemma InsertShiftReplyRoundTrip(rp: Reply, s: Shift, tail: seq<byte>)
    requires ValidShift(s)
    ensures DecodeInsertShiftReply(Reader(Flatten(InsertShiftReplyOps(rp, s)) + tail, true))
         == Done(InsertShiftReply(rp, s), Reader(tail, true))
  {
    FlattenThen(ReplyOps(TagS2CInsertShiftReply, rp), ShiftOps(s), tail);
    ReplyRoundTrip(TagS2CInsertShiftReply, TagS2CInsertShiftReply, rp, Flatten(ShiftOps(s)) + tail);
    NestedShiftRoundTrip(s, tail);
  }

  lemma IdRequestRoundTrip(own: Tag, requestId: Int32, x: U64, tail: seq<byte>)
    requires own == TagC2SDeleteShift || own == TagC2SDeleteWorker
    ensures var p := if own == TagC2SDeleteShift then DeleteShift(requestId, x) else DeleteWorker(requestId, x);
            DecodeIdRequest(own, Reader(Flatten(IdRequestOps(own, requestId, x)) + tail, true)) == Done(p, Reader(tail, true))
  {
    FlattenThen(TrackOps(own, requestId), U64Ops(x), tail);
    TrackRoundTrip(own, own, requestId, Flatten(U64Ops(x)) + tail);
    ReadU64RoundTrip(x, tail);
  }

  lemma IdReplyRoundTrip(own: Tag, rp: Reply, x: U64, tail: seq<byte>)
    requires own == TagS2CDeleteShiftReply || own == TagS2CDeleteWorkerReply
    ensures var p := if own == TagS2CDeleteShiftReply then DeleteShiftReply(rp, x) else DeleteWorkerReply(rp, x);
            DecodeIdReply(own, Reader(Flatten(IdReplyOps(own, rp, x)) + tail, true)) == Done(p, Reader(tail, true))
  {
    FlattenThen(ReplyOps(own, rp), U64Ops(x), tail);
    ReplyRoundTrip(own, own, rp, Flatten(U64Ops(x)) + tail);
    ReadU64RoundTrip(x, tail);
  }

  lemma GetWorkersRoundTrip(requestId: Int32, tail: seq<byte>)
    ensures DecodeGetWorkers(Reader(Flatten(TrackOps(TagC2SGetWorkers, requestId)) + tail, true))
         == Done(GetWorkers(requestId), Reader(tail, true))
  {
    TrackRoundTrip(TagC2SGetWorkers, TagC2SGetWorkers, requestId, tail);
  }

  lemma GetWorkersReplyRoundTrip(rp: Reply, ws: map<U64, ShiftWorker>, tail: seq<byte>)
    requires |ws| < Pow256(SIZE_T)
    ensures DecodeGetWorkersReply(Reader(Flatten(GetWorkersReplyOps(rp, ws)) + tail, true))
         == Done(GetWorkersReply(rp, ws), Reader(tail, true))
  {
    FlattenThen(ReplyOps(TagS2CGetWorkersReply, rp), WorkerMapOps(ws), tail);
    ReplyRoundTrip(TagS2CGetWorkersReply, TagS2CGetWorkersReply, rp, Flatten(WorkerMapOps(ws)) + tail);
    WorkerMapRoundTrip(ws, tail);
  }

  lemma {:induction false} InsertWorkerRoundTrip(requestId: Int32, w: ShiftWorker, modifying: bool, tail: seq<byte>)
    ensures DecodeInsertWorker(Reader(Flatten(InsertWorkerOps(requestId, w, modifying)) + tail, true))
         == Done(InsertWorker(requestId, w, modifying), Reader(tail, true))
  {
    var r2 := Flatten(BoolOps(modifying)) + tail;
    var r1 := Flatten(WorkerOps(w)) + r2;
    FlattenThen(TrackOps(TagC2SInsertWorker, requestId) + WorkerOps(w), BoolOps(modifying), tail);
    FlattenThen(TrackOps(TagC2SInsertWorker, requestId), WorkerOps(w), r2);
    TrackRoundTrip(TagC2SInsertWorker, TagC2SInsertWorker, requestId, r1);
    NestedWorkerRoundTrip(w, r2);
    BoolRoundTrip(modifying, tail);
  }

  lemma InsertWorkerReplyRoundTrip(rp: Reply, w: ShiftWorker, tail: seq<byte>)
    ensures DecodeInsertWorkerReply(Reader(Flatten(InsertWorkerReplyOps(rp, w)) + tail, true))
         == Done(InsertWorkerReply(rp, w), Reader(tail, true))
  {
    FlattenThen(ReplyOps(TagS2CInsertWorkerReply, rp), WorkerOps(w), tail);
    ReplyRoundTrip(TagS2CInsertWorkerReply, TagS2CInsertWorkerReply, rp, Flatten(WorkerOps(w)) + tail);
    NestedWorkerRoundTrip(w, tail);
  }

  lemma {:induction false} ClientSyncRoundTrip(rw: set<U64>, rs: set<U64>, cw: set<ShiftWorker>, cs: set<Shift>,
                                               tail: seq<byte>)
    requires |rw| < Pow256(SIZE_T) && |rs| < Pow256(SIZE_T) && |cw| < Pow256(SIZE_T) && |cs| < Pow256(SIZE_T)
    requires forall s :: s in cs ==> ValidShift(s)
    ensures DecodeClientSync(Reader(Flatten(ClientSyncOps(rw, rs, cw, cs)) + tail, true))
         == Done(ClientSync(rw, rs, cw, cs), Reader(tail, true))
  {
    var r4 := Flatten(WorkerSetOps(cw)) + tail;
    var r3 := Flatten(ShiftSetOps(cs)) + r4;
    var r2 := Flatten(SetPrimitiveOps(rs)) + r3;
    var r1 := Flatten(SetPrimitiveOps(rw)) + r2;
    var p1 := TagOps(TagS2CClientSync);
    var p2 := p1 + SetPrimitiveOps(rw);
    var p3 := p2 + SetPrimitiveOps(rs);
    var p4 := p3 + ShiftSetOps(cs);
    FlattenThen(p4, WorkerSetOps(cw), tail);
    FlattenThen(p3, ShiftSetOps(cs), r4);
    FlattenThen(p2, SetPrimitiveOps(rs), r3);
    FlattenThen(p1, SetPrimitiveOps(rw), r2);
    TagRoundTrip(TagS2CClientSync, TagS2CClientSync, r1);
    SetPrimitiveRoundTrip(rw, r2);
    SetPrimitiveRoundTrip(rs, r3);
    ShiftSetRoundTrip(cs, r4);
    WorkerSetRoundTrip(cw, tail);
  }

  // ------------------------------------------------------- any payload

  /**
   * The payloads that survive their own encoding: dates and times that the
   * setters accept, shifts whose duration fits the day, and collections
   * whose size fits the `size_t` count.
   */
  predicate ValidPayload(p: Payload)
  {
    match p
    case DateValue(d) => ValidDate(d)
    case DateTimeValue(t) => ValidDateTime(t)
    case ShiftValue(s) => ValidShift(s)
    case GetShiftsByDay(_, d) => ValidDate(d)
    case GetShiftsReply(_, d, ss) => ValidDate(d) && |ss| < Pow256(SIZE_T) && forall s :: s in ss ==> ValidShift(s)
    case InsertShift(_, s, _) => ValidShift(s)
    case InsertShiftReply(_, s) => ValidShift(s)
    case GetWorkersReply(_, ws) => |ws| < Pow256(SIZE_T)
    case ClientSync(rw, rs, cw, cs) =>
      |rw| < Pow256(SIZE_T) && |rs| < Pow256(SIZE_T) && |cw| < Pow256(SIZE_T) && |cs| < Pow256(SIZE_T) &&
      forall s :: s in cs ==> ValidShift(s)
    case _ => true
  }

  /** Every default-constructed payload is valid. */
  lemma DefaultsValid(c: PayloadClass)
    ensures ValidPayload(Default(c))
  {
    DefaultShiftIsBuilt();
  }

  /** Deserializing into an instance of the writer's own class gives back the payload written. */
  lemma DecodeAsRoundTrip(p: Payload, tail: seq<byte>)
    requires ValidPayload(p)
    ensures DecodeAs(TagOf(p), Reader(Flatten(Encode(p)) + tail, true)) == Done(p, Reader(tail, true))
    ensures |Encode(p)| > 0 && Encode(p)[0] == TagOps(TagOf(p))[0]
  {
    if TagOf(p) <= TagShiftWorker {
      ValueRoundTrip(p, tail);
    } else if IsReply(p) && AboutWorkers(p) {
      WorkerReplyRoundTrip(p, tail);
    } else if IsReply(p) {
      ShiftReplyRoundTrip(p, tail);
    } else if IsTrackable(p) && AboutWorkers(p) {
      WorkerRequestRoundTrip(p, tail);
    } else if IsTrackable(p) {
      ShiftRequestRoundTrip(p, tail);
    } else {
      ClientSyncRoundTrip(p.removedWorkers, p.removedShifts, p.changedWorkers, p.changedShifts, tail);
    }
  }

  lemma {:induction false} ValueRoundTrip(p: Payload, tail: seq<byte>)
    requires ValidPayload(p) && TagOf(p) <= TagShiftWorker
    ensures DecodeAs(TagOf(p), Reader(Flatten(Encode(p)) + tail, true)) == Done(p, Reader(tail, true))
    ensures |Encode(p)| > 0 && Encode(p)[0] == TagOps(TagOf(p))[0]
  {
    match p
    case Ping => PingRoundTrip(TagPing, TagPing, tail);
    case PingReply => PingRoundTrip(TagPingReply, TagPingReply, tail);
    case DateValue(d) => DateRoundTrip(DefaultDate, d, TagDate, tail);
    case DateTimeValue(t) => DateTimeRoundTrip(DefaultDateTime, t, TagDateTime, tail);
    case ShiftValue(s) => ShiftRoundTrip(DefaultShift, s, tail);
    case WorkerValue(w) => WorkerRoundTrip(DefaultWorker, w, tail);
  }

  /** The packets about workers, as opposed to shifts and authorization. */
  predicate AboutWorkers(p: Payload)
  {
    p.GetWorkers? || p.InsertWorker? || p.DeleteWorker? ||
    p.GetWorkersReply? || p.InsertWorkerReply? || p.DeleteWorkerReply?
  }

  lemma {:induction false} ShiftRequestRoundTrip(p: Payload, tail: seq<byte>)
    requires ValidPayload(p) && IsTrackable(p) && !IsReply(p) && !AboutWorkers(p)
    ensures DecodeAs(TagOf(p), Reader(Flatten(Encode(p)) + tail, true)) == Done(p, Reader(tail, true))
    ensures |Encode(p)| > 0 && Encode(p)[0] == TagOps(TagOf(p))[0]
  {
    match p
    case Authorize(id, token) => AuthorizeRoundTrip(id, token, tail);
    case GetShiftsByDay(id, d) => GetShiftsByDayRoundTrip(id, d, tail);
    case InsertShift(id, s, m) => InsertShiftRoundTrip(id, s, m, tail);
    case DeleteShift(id, x) => IdRequestRoundTrip(TagC2SDeleteShift, id, x, tail);
  }

  lemma {:induction false} WorkerRequestRoundTrip(p: Payload, tail: seq<byte>)
    requires ValidPayload(p) && IsTrackable(p) && !IsReply(p) && AboutWorkers(p)
    ensures DecodeAs(TagOf(p), Reader(Flatten(Encode(p)) + tail, true)) == Done(p, Reader(tail, true))
    ensures |Encode(p)| > 0 && Encode(p)[0] == TagOps(TagOf(p))[0]
  {
    match p
    case GetWorkers(id) => GetWorkersRoundTrip(id, tail);
    case InsertWorker(id, w, m) => InsertWorkerRoundTrip(id, w, m, tail);
    case DeleteWorker(id, x) => IdRequestRoundTrip(TagC2SDeleteWorker, id, x, tail);
  }

  lemma {:induction false} ShiftReplyRoundTrip(p: Payload, tail: seq<byte>)
    requires ValidPayload(p) && IsReply(p) && !AboutWorkers(p)
    ensures DecodeAs(TagOf(p), Reader(Flatten(Encode(p)) + tail, true)) == Done(p, Reader(tail, true))
    ensures |Encode(p)| > 0 && Encode(p)[0] == TagOps(TagOf(p))[0]
  {
    match p
    case AuthorizeReply(rp, perms) => AuthorizeReplyRoundTrip(rp, perms, tail);
    case GetShiftsReply(rp, d, ss) => GetShiftsReplyRoundTrip(rp, d, ss, tail);
    case InsertShiftReply(rp, s) => InsertShiftReplyRoundTrip(rp, s, tail);
    case DeleteShiftReply(rp, x) => IdReplyRoundTrip(TagS2CDeleteShiftReply, rp, x, tail);
  }

  lemma {:induction false} WorkerReplyRoundTrip(p: Payload, tail: seq<byte>)
    requires ValidPayload(p) && IsReply(p) && AboutWorkers(p)
    ensures DecodeAs(TagOf(p), Reader(Flatten(Encode(p)) + tail, true)) == Done(p, Reader(tail, true))
    ensures |Encode(p)| > 0 && Encode(p)[0] == TagOps(TagOf(p))[0]
  {
    if p.GetWorkersReply? {
      GetWorkersReplyRoundTrip(p.reply, p.workers, tail);
    } else {
      WorkerUpdateReplyRoundTrip(p, tail);
    }
  }

  lemma {:induction false} WorkerUpdateReplyRoundTrip(p: Payload, tail: seq<byte>)
    requires p.InsertWorkerReply? || p.DeleteWorkerReply?
    ensures DecodeAs(TagOf(p), Reader(Flatten(Encode(p)) + tail, true)) == Done(p, Reader(tail, true))
    ensures |Encode(p)| > 0 && Encode(p)[0] == TagOps(TagOf(p))[0]
  {
    match p
    case InsertWorkerReply(rp, w) => InsertWorkerReplyRoundTrip(rp, w, tail);
    case DeleteWorkerReply(rp, x) => IdReplyRoundTrip(TagS2CDeleteWorkerReply, rp, x, tail);
  }

  /**
   * Reading a payload off a stream that holds what `serialize` wrote: the
   * registry builds an instance of the tag's class, whose `deserialize`
   * gives back the payload.
   */
  lemma PayloadRoundTrip(p: Payload, tail: seq<byte>)
    requires ValidPayload(p)
    ensures DecodePayload(Reader(Flatten(Encode(p)) + tail, true)) == Done(p, Reader(tail, true))
  {
    DecodeAsRoundTrip(p, tail);
    TagLeads(TagOf(p), Encode(p), tail);
    ModelNewAnyInstance(TagOf(p));
  }

  /** A tag that names no constructible class is refused before anything else is read. */
  lemma PayloadRejectsUnknown(b: byte, rest: seq<byte>)
    requires !Constructible(b)
    ensures DecodePayload(Reader([b] + rest, true)).Threw?
  {
    ModelNewAnyInstance(b);
  }
}
