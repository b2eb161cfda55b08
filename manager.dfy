/**
 * The `RestaurantManager` service (BaseLibrary/RestaurantManager.h,
 * BaseLibrary/RestaurantManager.cpp): a server-side observer that keeps the
 * shift and worker tables, answers the eight request packets and announces
 * every change to all clients.
 *
 * The class applies, field by field, the steps module Store defines on
 * table values; every method is proved to leave the fields exactly as the
 * matching step says.  What the server's `writeToAll` is handed is kept in
 * `broadcast`.
 */
module Manager {
  import opened Wire
  import opened Errors
  import opened Binary
  import opened Registry
  import opened Serial
  import opened Calendar
  import opened Schedule
  import opened Packets
  import opened Bags
  import opened Store
  import opened Connections
  import Permissions

  const UnauthorizedMsg: string := "Unauthorized"
  const InvalidTokenMsg: string := "Invalid access token"
  const PermissionsKey: string := "Permissions"

  /** The bytes of a `std::string` built from a message: one per character. */
  function Bytes(s: string): (b: ByteString)
    ensures |s| < 0x1_0000_0000_0000_0000 ==> |b| == |s| && forall i :: 0 <= i < |s| ==> b[i] == (s[i] as int) % 256
  {
    if |s| < 0x1_0000_0000_0000_0000 then seq(|s|, i requires 0 <= i < |s| => (s[i] as int) % 256) else []
  }

  /** `ex.what()` of an exception the store throws. */
  function What(e: Error): ByteString
  {
    Bytes(e.msg)
  }

  // ------------------------------------------------------------- handlers

  /** The handlers the constructor registers, numbered in registration order. */
  const PingHandler: Callback := 1
  const AuthorizeHandler: Callback := 2
  const DeleteShiftHandler: Callback := 3
  const GetShiftsByDayHandler: Callback := 4
  const GetWorkersHandler: Callback := 5
  const InsertShiftHandler: Callback := 6
  const InsertWorkerHandler: Callback := 7
  const DeleteWorkerHandler: Callback := 8

  /** The tags of the requests the manager answers. */
  const RequestTags: set<Tag> := {TagPing, TagC2SAuthorize, TagC2SDeleteShift, TagC2SGetShiftsByDay, TagC2SGetWorkers,
                                  TagC2SInsertShift, TagC2SInsertWorker, TagC2SDeleteWorker}

  /** The handler the constructor registers under a request tag. */
  function HandlerFor(t: Tag): Callback
  {
    if t == TagPing then PingHandler
    else if t == TagC2SAuthorize then AuthorizeHandler
    else if t == TagC2SDeleteShift then DeleteShiftHandler
    else if t == TagC2SGetShiftsByDay then GetShiftsByDayHandler
    else if t == TagC2SGetWorkers then GetWorkersHandler
    else if t == TagC2SInsertShift then InsertShiftHandler
    else if t == TagC2SInsertWorker then InsertWorkerHandler
    else DeleteWorkerHandler
  }

  /** The handler table after the constructor: one handler under each request's tag. */
  function HandlerTable(): map<Tag, seq<Callback>>
  {
    map t | t in RequestTags :: [HandlerFor(t)]
  }

  /** The table the constructor's eight `addHandler` calls build, in their order. */
  lemma HandlerTableInOrder()
    ensures HandlerTable() == map[TagPing := [PingHandler]][TagC2SAuthorize := [AuthorizeHandler]]
                                 [TagC2SDeleteShift := [DeleteShiftHandler]][TagC2SGetShiftsByDay := [GetShiftsByDayHandler]]
                                 [TagC2SGetWorkers := [GetWorkersHandler]][TagC2SInsertShift := [InsertShiftHandler]]
                                 [TagC2SInsertWorker := [InsertWorkerHandler]][TagC2SDeleteWorker := [DeleteWorkerHandler]]
  {
  }

  /** Adding a handler under a tag that has none leaves exactly that handler there. */
  lemma AddedFresh(h: map<Tag, seq<Callback>>, t: Tag, cb: Callback)
    requires t !in h
    ensures h[t := HandlersOf(h, t) + [cb]] == h[t := [cb]]
  {
    assert HandlersOf(h, t) + [cb] == [cb];
  }

  /** The requests the manager answers. */
  predicate Served(p: Payload)
  {
    p.Ping? || p.Authorize? || Gated(p)
  }

  /** The requests that pass a permission check first. */
  predicate Gated(p: Payload)
  {
    p.GetShiftsByDay? || p.InsertShift? || p.DeleteShift? || p.GetWorkers? || p.InsertWorker? || p.DeleteWorker?
  }

  /** The handler registered for a served request. */
  function HandlerOf(p: Payload): (cb: Callback)
    requires Served(p)
    ensures HandlerTable()[TagOf(p)] == [cb]
  {
    match p
    case Ping => PingHandler
    case Authorize(_, _) => AuthorizeHandler
    case DeleteShift(_, _) => DeleteShiftHandler
    case GetShiftsByDay(_, _) => GetShiftsByDayHandler
    case GetWorkers(_) => GetWorkersHandler
    case InsertShift(_, _, _) => InsertShiftHandler
    case InsertWorker(_, _, _) => InsertWorkerHandler
    case DeleteWorker(_, _) => DeleteWorkerHandler
  }

  /** Eight handlers, one under each request's tag, no two alike. */
  lemma EightHandlers()
    ensures HandlerTable().Keys == RequestTags
    ensures |RequestTags| == 8
    ensures forall t, u :: t in HandlerTable() && u in HandlerTable() && HandlerTable()[t] == HandlerTable()[u] ==> t == u
  {
    assert |RequestTags| == 8;
    assert HandlerTable().Keys == RequestTags;
  }

  /** A served request reaches exactly its own handler; any other payload reaches none. */
  lemma HandlerTableDispatch(p: Payload, size: nat)
    ensures Served(p) ==> Dispatch(HandlerTable(), p, size) == [Call(HandlerOf(p), p, size)]
    ensures !Served(p) ==> Dispatch(HandlerTable(), p, size) == []
  {
    if !Served(p) {
      assert TagOf(p) !in HandlerTable();
    }
  }

  /** The permission a gated request needs: viewing for the queries, inserting for the inserts, deleting for the deletes. */
  function Required(p: Payload): (m: Permissions.Mask)
    requires Gated(p)
  {
    if p.GetShiftsByDay? || p.GetWorkers? then Permissions.View
    else if p.InsertShift? || p.InsertWorker? then Permissions.Insert
    else Permissions.Delete
  }

  /** `q` is the reply class of the gated request `p` and carries its request id. */
  predicate Replies(q: Payload, p: Payload)
    requires Gated(p)
  {
    match p
    case GetShiftsByDay(rid, _) => q.GetShiftsReply? && q.reply.requestId == rid
    case InsertShift(rid, _, _) => q.InsertShiftReply? && q.reply.requestId == rid
    case DeleteShift(rid, _) => q.DeleteShiftReply? && q.reply.requestId == rid
    case GetWorkers(rid) => q.GetWorkersReply? && q.reply.requestId == rid
    case InsertWorker(rid, _, _) => q.InsertWorkerReply? && q.reply.requestId == rid
    case DeleteWorker(rid, _) => q.DeleteWorkerReply? && q.reply.requestId == rid
  }

  /** A reply to a gated request is a trackable reply whose tag follows the request's and whose id is the request's. */
  lemma RepliesTag(q: Payload, p: Payload)
    requires Gated(p) && Replies(q, p)
    ensures IsReply(q) && TagOf(q) == TagOf(p) + 1 && RequestId(q) == RequestId(p)
  {
    match p
    case GetShiftsByDay(_, _) =>
    case InsertShift(_, _, _) =>
    case DeleteShift(_, _) =>
    case GetWorkers(_) =>
    case InsertWorker(_, _, _) =>
    case DeleteWorker(_, _) =>
  }

  /** The reply a gated request is refused with: its reply constructor's fields, failed with "Unauthorized". */
  function Refused(p: Payload): (q: Payload)
    requires Gated(p)
    ensures Replies(q, p) && IsReply(q)
    ensures !q.reply.success && q.reply.errorMsg == Bytes(UnauthorizedMsg)
  {
    var fail := SetErrorMsg(SucceededReply(p.requestId), Bytes(UnauthorizedMsg));
    match p
    case GetShiftsByDay(_, d) => GetShiftsReply(fail, d, {})
    case InsertShift(_, s, _) => InsertShiftReply(fail, s)
    case DeleteShift(_, id) => DeleteShiftReply(fail, id)
    case GetWorkers(_) => GetWorkersReply(fail, map[])
    case InsertWorker(_, w, _) => InsertWorkerReply(fail, w)
    case DeleteWorker(_, id) => DeleteWorkerReply(fail, id)
  }

  /** A permitted day query: the shifts listed for the day. */
  function GrantedShifts(t: Tables, rid: Int32, d: Date): (st: Step<Payload>)
    ensures st.result.GetShiftsReply? && st.result.reply.requestId == rid
  {
    var q := ShiftsOfDay(t, d);
    Step(q.tables, [], GetShiftsReply(SucceededReply(rid), d, q.result))
  }

  /** A permitted shift insertion: the stored shift, or the original one with the error's message. */
  function GrantedInsertShift(t: Tables, rid: Int32, s: Shift, editing: bool): (st: Step<Payload>)
    ensures st.result.InsertShiftReply? && st.result.reply.requestId == rid
  {
    var q := Store.InsertShift(t, s, editing);
    var reply := if q.result.Ok? then InsertShiftReply(SucceededReply(rid), q.result.value)
                 else InsertShiftReply(SetErrorMsg(SucceededReply(rid), What(q.result.error)), s);
    Step(q.tables, q.syncs, reply)
  }

  /** A permitted shift deletion: success is whether the shift was stored. */
  function GrantedDeleteShift(t: Tables, rid: Int32, id: U64): (st: Step<Payload>)
    ensures st.result.DeleteShiftReply? && st.result.reply.requestId == rid
  {
    var q := Store.DeleteShift(t, id);
    Step(q.tables, q.syncs, DeleteShiftReply(SetSuccess(SucceededReply(rid), q.result), id))
  }

  /** A permitted worker insertion: the stored worker, or the original one with the error's message. */
  function GrantedInsertWorker(t: Tables, rid: Int32, w: ShiftWorker, editing: bool): (st: Step<Payload>)
    ensures st.result.InsertWorkerReply? && st.result.reply.requestId == rid
  {
    var q := Store.InsertWorker(t, w, editing);
    var reply := if q.result.Ok? then InsertWorkerReply(SucceededReply(rid), q.result.value)
                 else InsertWorkerReply(SetErrorMsg(SucceededReply(rid), What(q.result.error)), w);
    Step(q.tables, q.syncs, reply)
  }

  /** A permitted worker deletion: success is whether the worker was stored. */
  function GrantedDeleteWorker(t: Tables, rid: Int32, id: U64): (st: Step<Payload>)
    ensures st.result.DeleteWorkerReply? && st.result.reply.requestId == rid
  {
    var q := Store.DeleteWorker(t, id);
    Step(q.tables, q.syncs, DeleteWorkerReply(SetSuccess(SucceededReply(rid), q.result), id))
  }

  /** What a permitted gated request does to the tables, and the reply it sends. */
  function Granted(t: Tables, p: Payload): (st: Step<Payload>)
    requires Gated(p)
    ensures Replies(st.result, p) && IsReply(st.result)
  {
    match p
    case GetShiftsByDay(rid, d) => GrantedShifts(t, rid, d)
    case InsertShift(rid, s, editing) => GrantedInsertShift(t, rid, s, editing)
    case DeleteShift(rid, id) => GrantedDeleteShift(t, rid, id)
    case GetWorkers(rid) => Step(t, [], GetWorkersReply(SucceededReply(rid), t.workers))
    case InsertWorker(rid, w, editing) => GrantedInsertWorker(t, rid, w, editing)
    case DeleteWorker(rid, id) => GrantedDeleteWorker(t, rid, id)
  }

  /**
   * A gated handler: a caller without the required permission is refused and
   * nothing changes; otherwise the request runs.  Either way the reply is the
   * request's own reply class and carries its request id.
   */
  function Respond(t: Tables, held: Permissions.Mask, p: Payload): (st: Step<Payload>)
    requires Gated(p)
    ensures Replies(st.result, p) && IsReply(st.result)
    ensures !VerifyPermission(held, Required(p)) ==>
              st.tables == t && st.syncs == [] && !st.result.reply.success && st.result.reply.errorMsg == Bytes(UnauthorizedMsg)
  {
    if !VerifyPermission(held, Required(p)) then Step(t, [], Refused(p)) else Granted(t, p)
  }

  /**
   * `handleAuthorize`: a known token grants its permissions, an unknown one
   * fails with "Invalid access token" and grants none.
   */
  function AuthorizeAnswer(tokens: map<ByteString, U16>, p: Payload): (q: Payload)
    requires p.Authorize?
    ensures q.AuthorizeReply? && q.reply.requestId == p.requestId
    ensures q.reply.success <==> p.token in tokens
    ensures p.token in tokens ==> q.permissions == tokens[p.token] && q.reply.errorMsg == []
    ensures p.token !in tokens ==> q.permissions == 0 && q.reply.errorMsg == Bytes(InvalidTokenMsg)
  {
    if p.token !in tokens then AuthorizeReply(SetErrorMsg(SucceededReply(p.requestId), Bytes(InvalidTokenMsg)), 0)
    else AuthorizeReply(SucceededReply(p.requestId), tokens[p.token])
  }

  /**
   * What a served request does: the step on the tables, with the reply as its
   * result, and the connection's bag afterwards (only an authorization writes it).
   */
  function Answer(t: Tables, bag: map<string, Permissions.Mask>, p: Payload): (res: (Step<Payload>, map<string, Permissions.Mask>))
    requires Served(p)
    ensures !p.Authorize? ==> res.1 == bag
    ensures p.Ping? ==> res.0 == Step(t, [], PingReply)
  {
    if p.Ping? then (Step(t, [], PingReply), bag)
    else if p.Authorize? then
      var q := AuthorizeAnswer(t.tokens, p);
      (Step(t, [], q), bag[PermissionsKey := q.permissions as bv16])
    else (Respond(t, Held(bag), p), bag)
  }

  // ---------------------------------------------------------- what it means

  /** After an authorization the connection holds exactly the token's permissions, or none for an unknown token. */
  lemma AuthorizeGrants(t: Tables, bag: map<string, Permissions.Mask>, p: Payload)
    requires p.Authorize?
    ensures var (st, after) := Answer(t, bag, p);
            st.tables == t && st.syncs == [] &&
            Held(after) == (if p.token in t.tokens then t.tokens[p.token] as bv16 else Permissions.None) &&
            (st.result.reply.success <==> p.token in t.tokens)
  {
  }

  /** A permitted query leaves consistent tables alone: a day's query yields exactly its stored shifts, the workers' query the whole table. */
  lemma QueriesAnswer(t: Tables, held: Permissions.Mask, p: Payload)
    requires Indexed(t) && (p.GetShiftsByDay? || p.GetWorkers?) && VerifyPermission(held, Permissions.View)
    ensures Respond(t, held, p).tables == t && Respond(t, held, p).syncs == []
    ensures Respond(t, held, p).result.reply.success
    ensures p.GetShiftsByDay? ==> forall s :: s in Respond(t, held, p).result.shifts <==> s in t.shifts.Values && s.startTime.date == p.date
    ensures p.GetWorkers? ==> Respond(t, held, p).result.workers == t.workers
  {
    if p.GetShiftsByDay? {
      ShiftsOfDayMeaning(t, p.date);
    }
  }

  /** A permitted delete succeeds exactly when the id is stored, and removes it. */
  lemma DeletesAnswer(t: Tables, held: Permissions.Mask, p: Payload)
    requires (p.DeleteShift? || p.DeleteWorker?) && VerifyPermission(held, Permissions.Delete)
    ensures p.DeleteShift? ==> (Respond(t, held, p).result.reply.success <==> p.shiftId in t.shifts) &&
                               Respond(t, held, p).tables.shifts == t.shifts - {p.shiftId}
    ensures p.DeleteWorker? ==> (Respond(t, held, p).result.reply.success <==> p.workerId in t.workers) &&
                                Respond(t, held, p).tables.workers == t.workers - {p.workerId}
  {
  }

  /** Every answer keeps consistent, overlap-free tables so, as long as identities do not wrap and inserted shifts are valid. */
  lemma AnswerKeeps(t: Tables, bag: map<string, Permissions.Mask>, p: Payload)
    requires Consistent(t) && Disjoint(t) && U64_MAX !in t.shifts && U64_MAX !in t.workers
    requires Served(p) && (p.InsertShift? ==> ValidShift(p.shift))
    ensures Consistent(Answer(t, bag, p).0.tables) && Disjoint(Answer(t, bag, p).0.tables)
  {
    if Gated(p) && VerifyPermission(Held(bag), Required(p)) {
      match p
      case GetShiftsByDay(_, d) => ShiftsOfDayMeaning(t, d);
      case InsertShift(_, s, editing) =>
        InsertShiftKeeps(t, s, editing);
        InsertShiftKeepsDisjoint(t, s, editing);
      case DeleteShift(_, id) => DeleteShiftKeeps(t, id);
      case GetWorkers(_) =>
      case InsertWorker(_, w, editing) => InsertWorkerKeeps(t, w, editing);
      case DeleteWorker(_, id) =>
        DeleteWorkerKeeps(t, id);
        DeleteWorkerKeepsDisjoint(t, id);
    }
  }

  // ------------------------------------------------------------- reading

  /** One count-prefixed read loop of `deserialize`, storing each entry once its key and value are read. */
  method ReadMap<K, V>(r: Reader, kdec: Reader -> Decoded<K>, vdec: Reader -> Decoded<V>)
    returns (o: Decoded<map<K, V>>, filled: map<K, V>)
    ensures (filled, o) == MapRead(r, kdec, vdec)
  {
    filled := map[];
    var n := ReadUInt(r, SIZE_T);
    if n.Threw? {
      return Threw(n.error, n.state), filled;
    }
    var count := n.value;
    var cur := n.state;
    var i := 0;
    while i < count
      invariant 0 <= i <= count
      invariant PairsRead(cur, count - i, kdec, vdec, filled) == PairsRead(n.state, count, kdec, vdec, map[])
    {
      var k := kdec(cur);
      if k.Threw? {
        return Threw(k.error, k.state), filled;
      }
      var v := vdec(k.state);
      if v.Threw? {
        return Threw(v.error, v.state), filled;
      }
      filled := filled[k.value := v.value];
      cur := v.state;
      i := i + 1;
    }
    return Done(filled, cur), filled;
  }

  // -------------------------------------------------------------- the class

  /**
   * The loop of `handleGetShiftsByDay`: `_shifts[id]` for every listed id,
   * which inserts a default shift under an id the table lacks.
   */
  method LookUp(m0: map<U64, Shift>, all: set<U64>) returns (m: map<U64, Shift>, ss: set<Shift>)
    ensures m == Filled(m0, all) && ss == Looked(m0, all)
  {
    m, ss := m0, {};
    var todo := all;
    ghost var done: set<U64> := {};
    while todo != {}
      invariant done + todo == all && done !! todo
      invariant m.Keys == m0.Keys + done && forall k :: k in m ==> m[k] == At(m0, k)
      invariant ss == Looked(m0, done)
      decreases todo
    {
      var id :| id in todo;
      LookedStep(m0, done, id);
      ss := ss + {At(m, id)};
      m := m[id := At(m, id)];
      todo := todo - {id};
      done := done + {id};
    }
    FilledPointwise(m, m0, all);
  }

  // ------------------------------------------------- the requester's own copy

  /**
   * `writeToAll` as the requesting connection sees it.  The server's client
   * list holds that connection too (Server.cpp, `prepareClient`), so each
   * packet goes out on it with `writeSync`, and whatever that throws is
   * swallowed.
   */
  function SyncedTo(s: ConnState, ps: seq<Payload>): ConnState
    decreases |ps|
  {
    if ps == [] then s else SyncedTo(WriteSyncSpec(s, ps[0]).0, ps[1..])
  }

  /** The frames of the payloads, back to back. */
  function Frames(ps: seq<Payload>): seq<byte>
    decreases |ps|
  {
    if ps == [] then [] else Frame(Body(ps[0])) + Frames(ps[1..])
  }

  lemma Associative(a: seq<byte>, b: seq<byte>, c: seq<byte>)
    ensures a + (b + c) == (a + b) + c
  {
  }

  /** Every packet's encoding fits a frame. */
  predicate AllFit(ps: seq<Payload>)
    decreases |ps|
  {
    ps == [] || (|Body(ps[0])| <= MAX_PACKET_SIZE && AllFit(ps[1..]))
  }

  /** One packet that fits, on a live connection with room: its frame goes out and the setup stays. */
  lemma SendsOne(s: ConnState, p: Payload)
    requires Alive(s) && s.sendGood && |Body(p)| <= MAX_PACKET_SIZE
    requires |Frame(Body(p))| <= s.socket.value.accepts
    ensures var t := WriteSyncSpec(s, p).0;
            Alive(t) && t.sendGood && t.sent == s.sent + Frame(Body(p)) &&
            t.socket.value.accepts == s.socket.value.accepts - |Frame(Body(p))| && SameSetup(s, t)
  {
    WriteSyncSendsFrame(s, p);
  }

  /** On a live connection with room on its socket, the packets go out as their frames, in order. */
  lemma {:induction false} SyncedToSends(s: ConnState, ps: seq<Payload>)
    requires Alive(s) && s.sendGood && AllFit(ps)
    requires |Frames(ps)| <= s.socket.value.accepts
    ensures var t := SyncedTo(s, ps);
            Alive(t) && t.sendGood && t.sent == s.sent + Frames(ps) &&
            t.socket.value.accepts == s.socket.value.accepts - |Frames(ps)| && SameSetup(s, t)
    decreases |ps|
  {
    if ps != [] {
      SendsOne(s, ps[0]);
      var s1 := WriteSyncSpec(s, ps[0]).0;
      SyncedToSends(s1, ps[1..]);
      Associative(s.sent, Frame(Body(ps[0])), Frames(ps[1..]));
    }
  }

  /**
   * A requester on a live connection with room on its socket gets the frames
   * of the packets `writeToAll` is handed before the frame of its reply, which
   * is the order in which the client handles them.
   */
  lemma SyncFramesFirst(s: ConnState, syncs: seq<Payload>, reply: Payload)
    requires Alive(s) && s.sendGood && AllFit(syncs) && |Body(reply)| <= MAX_PACKET_SIZE
    requires |Frames(syncs)| + |Frame(Body(reply))| <= s.socket.value.accepts
    ensures WriteSyncSpec(SyncedTo(s, syncs), reply) ==
              (WriteSyncSpec(SyncedTo(s, syncs), reply).0, Ok(()))
    ensures WriteSyncSpec(SyncedTo(s, syncs), reply).0.sent == s.sent + Frames(syncs) + Frame(Body(reply))
  {
    SyncedToSends(s, syncs);
    WriteSyncSendsFrame(SyncedTo(s, syncs), reply);
  }

  /** The requester's share of `writeToAll`: each packet written with `writeSync`, whatever it throws. */
  method WriteToRequester(conn: Connection, ps: seq<Payload>)
    modifies conn
    ensures conn.State() == SyncedTo(old(conn.State()), ps)
  {
    var i := 0;
    while i < |ps|
      invariant 0 <= i <= |ps|
      invariant SyncedTo(conn.State(), ps[i..]) == SyncedTo(old(conn.State()), ps)
    {
      assert ps[i..][0] == ps[i] && ps[i..][1..] == ps[i + 1..];
      var ignored := conn.WriteSync(ps[i]);
      i := i + 1;
    }
  }

  /** `RestaurantManager`: the tables, the bound server (if any) and the observer's handler table. */
  class RestaurantManager {
    var shifts: map<U64, Shift>
    var byDay: map<Date, set<U64>>
    var workers: map<U64, ShiftWorker>
    var tokens: map<ByteString, U16>
    /** Every `S2C_ClientSync` handed to the server's `writeToAll`, in order. */
    var broadcast: seq<Payload>
    /** Whether `_server` is set. */
    const hasServer: bool
    /** The `ServerObserver` part. */
    const observer: Observer

    function State(): Tables
      reads this
    {
      Tables(shifts, byDay, workers, tokens)
    }

    /** What reaches `writeToAll`: the synchronisation packets when a server is bound, nothing otherwise. */
    function Announced(syncs: seq<Payload>): seq<Payload>
    {
      if hasServer then syncs else []
    }

    /** The handler table is the one the constructor builds. */
    predicate Valid()
      reads this, observer
    {
      observer.handlers == HandlerTable()
    }

    /** `RestaurantManager(server)`: empty tables and the eight handlers, in order. */
    constructor(hasServer: bool)
      ensures State() == EmptyTables && broadcast == [] && this.hasServer == hasServer
      ensures fresh(observer) && Valid()
    {
      shifts, byDay, workers, tokens := map[], map[], map[], map[];
      broadcast := [];
      this.hasServer := hasServer;
      observer := new Observer();
      new;
      AddedFresh(observer.handlers, TagPing, PingHandler);
      observer.AddHandler(TagPing, PingHandler);
      AddedFresh(observer.handlers, TagC2SAuthorize, AuthorizeHandler);
      observer.AddHandler(TagC2SAuthorize, AuthorizeHandler);
      AddedFresh(observer.handlers, TagC2SDeleteShift, DeleteShiftHandler);
      observer.AddHandler(TagC2SDeleteShift, DeleteShiftHandler);
      AddedFresh(observer.handlers, TagC2SGetShiftsByDay, GetShiftsByDayHandler);
      observer.AddHandler(TagC2SGetShiftsByDay, GetShiftsByDayHandler);
      AddedFresh(observer.handlers, TagC2SGetWorkers, GetWorkersHandler);
      observer.AddHandler(TagC2SGetWorkers, GetWorkersHandler);
      AddedFresh(observer.handlers, TagC2SInsertShift, InsertShiftHandler);
      observer.AddHandler(TagC2SInsertShift, InsertShiftHandler);
      AddedFresh(observer.handlers, TagC2SInsertWorker, InsertWorkerHandler);
      observer.AddHandler(TagC2SInsertWorker, InsertWorkerHandler);
      AddedFresh(observer.handlers, TagC2SDeleteWorker, DeleteWorkerHandler);
      observer.AddHandler(TagC2SDeleteWorker, DeleteWorkerHandler);
      HandlerTableInOrder();
    }

    /** `verifyShift`: the loop over the day's ids in ascending order. */
    method VerifyShift(shift: Shift) returns (r: Result<bool>)
      modifies this
      ensures (State(), r) == (Store.VerifyShift(old(State()), shift).tables, Store.VerifyShift(old(State()), shift).result)
      ensures broadcast == old(broadcast)
    {
      var end := GetEndTime(shift);
      if end.Fail? {
        return Fail(end.error);
      }
      var finish := end.value;
      var d := shift.startTime.date;
      if d !in byDay {
        return Ok(true);
      }
      var ids := DayOrder(byDay[d]);
      ghost var m0 := shifts;
      var m := shifts;
      var i := 0;
      while i < |ids|
        invariant 0 <= i <= |ids|
        invariant Scan(m, ids[i..], shift, finish) == Scan(m0, ids, shift, finish)
      {
        var id := ids[i];
        assert ids[i..][0] == id && ids[i..][1..] == ids[i + 1..];
        if id != shift.id {
          var o := At(m, id);
          m := m[id := o];
          if o.jobName == shift.jobName {
            var oEnd := GetEndTime(o);
            if oEnd.Fail? {
              shifts := m;
              return Fail(oEnd.error);
            }
            if Collides(shift.startTime, finish, o.startTime, oEnd.value) {
              shifts := m;
              return Ok(false);
            }
          }
        }
        i := i + 1;
      }
      shifts := m;
      return Ok(true);
    }

    /** `deleteShift`. */
    method DeleteShift(id: U64) returns (found: bool)
      modifies this
      ensures State() == Store.DeleteShift(old(State()), id).tables && found == Store.DeleteShift(old(State()), id).result
      ensures broadcast == old(broadcast) + Announced(Store.DeleteShift(old(State()), id).syncs)
    {
      if id !in shifts {
        return false;
      }
      var d := shifts[id].startTime.date;
      byDay := byDay[d := DayIds(byDay, d) - {id}];
      shifts := shifts - {id};
      if hasServer {
        broadcast := broadcast + [RemovedShift(id)];
      }
      return true;
    }

    /** `insertShift`; an edit of a missing shift or a collision throws. */
    method InsertShift(shift: Shift, editing: bool := false) returns (r: Result<Shift>)
      modifies this
      ensures State() == Store.InsertShift(old(State()), shift, editing).tables
      ensures r == Store.InsertShift(old(State()), shift, editing).result
      ensures broadcast == old(broadcast) + Announced(Store.InsertShift(old(State()), shift, editing).syncs)
    {
      var id := shift.id;
      var probe := Probe(shift, editing);
      var free := VerifyShift(probe);
      if free.Fail? {
        return Fail(free.error);
      }
      if !free.value {
        return Fail(InvalidArgument(CollidesMsg));
      }
      if editing {
        var found := DeleteShift(id);
        if !found {
          return Fail(InvalidArgument(ShiftMissingMsg));
        }
      } else {
        id := NewIdentityId(shifts);
        probe := probe.(id := id);
      }
      shifts := shifts[id := probe];
      var d := probe.startTime.date;
      byDay := byDay[d := DayIds(byDay, d) + {id}];
      if hasServer {
        broadcast := broadcast + [ChangedShift(probe)];
      }
      return Ok(probe);
    }

    /** `deleteWorker`: every shift of the worker is unassigned, one at a time. */
    method DeleteWorker(w: U64) returns (found: bool)
      modifies this
      ensures State() == Store.DeleteWorker(old(State()), w).tables && found == Store.DeleteWorker(old(State()), w).result
      ensures broadcast == old(broadcast) + Announced(Store.DeleteWorker(old(State()), w).syncs)
    {
      if w !in workers {
        return false;
      }
      var m0 := shifts;
      var m := m0;
      var todo := m0.Keys;
      while todo != {}
        invariant todo <= m0.Keys && m.Keys == m0.Keys
        invariant forall k :: k in m ==> m[k] == (if k in todo then m0[k] else Released(m0[k], w))
        decreases todo
      {
        var k :| k in todo;
        if m[k].workerId == w {
          m := m[k := m[k].(workerId := 0)];
        }
        todo := todo - {k};
      }
      assert m == Unassigned(m0, w);
      shifts := m;
      workers := workers - {w};
      if hasServer {
        broadcast := broadcast + [RemovedWorker(w)];
      }
      return true;
    }

    /** `insertWorker`; an edit of a missing worker throws. */
    method InsertWorker(worker: ShiftWorker, editing: bool := false) returns (r: Result<ShiftWorker>)
      modifies this
      ensures State() == Store.InsertWorker(old(State()), worker, editing).tables
      ensures r == Store.InsertWorker(old(State()), worker, editing).result
      ensures broadcast == old(broadcast) + Announced(Store.InsertWorker(old(State()), worker, editing).syncs)
    {
      var id := worker.id;
      var w := worker;
      if editing {
        if id !in workers {
          return Fail(InvalidArgument(WorkerMissingMsg));
        }
      } else {
        id := NewIdentityId(workers);
        w := w.(id := id);
      }
      workers := workers[id := w];
      if hasServer {
        broadcast := broadcast + [ChangedWorker(w)];
      }
      return Ok(w);
    }

    /** The loop of `handleGetShiftsByDay`: each listed id's `_shifts[id]`. */
    method ShiftsOfDay(d: Date) returns (ss: set<Shift>)
      modifies this
      ensures State() == Store.ShiftsOfDay(old(State()), d).tables
      ensures ss == Store.ShiftsOfDay(old(State()), d).result
      ensures broadcast == old(broadcast)
    {
      ss := {};
      if d !in byDay {
        return;
      }
      var m;
      m, ss := LookUp(shifts, byDay[d]);
      shifts := m;
    }

    /** `deserialize`: the tag, then the four maps cleared and read back in order. */
    method Deserialize(r: Reader) returns (o: Outcome<(), Reader>)
      modifies this
      ensures (State(), o) == Loaded(old(State()), r)
      ensures broadcast == old(broadcast)
    {
      var tag := CheckTag(TagRestaurantManager, r);
      if tag.Threw? {
        return Threw(tag.error, tag.state);
      }
      o := Reload(tag.state);
    }

    /** The four maps, cleared and refilled in order. */
    method Reload(r: Reader) returns (o: Outcome<(), Reader>)
      modifies this
      ensures (State(), o) == LoadedBody(r)
      ensures broadcast == old(broadcast)
    {
      shifts, byDay, workers, tokens := map[], map[], map[], map[];
      var a, sa := ReadMap(r, ReadU64, DecodeNestedShift);
      shifts := sa;
      if a.Threw? {
        return Threw(a.error, a.state);
      }
      var b, sb := ReadMap(a.state, DecodeNestedDate, ParseSetPrimitive);
      byDay := sb;
      if b.Threw? {
        return Threw(b.error, b.state);
      }
      var c, sc := ReadMap(b.state, ReadU64, DecodeNestedWorker);
      workers := sc;
      if c.Threw? {
        return Threw(c.error, c.state);
      }
      var e, se := ReadMap(c.state, ReadStr, ReadU16);
      tokens := se;
      if e.Threw? {
        return Threw(e.error, e.state);
      }
      return Done((), e.state);
    }

    /**
     * The outcome every handler promises: the tables, the broadcasts and the
     * bag after the answer; the connection gets the requester's copy of each
     * broadcast, then the reply.
     */
    predicate Answered(t0: Tables, b0: seq<Payload>, bag0: map<string, Permissions.Mask>, c0: ConnState,
                       conn: Connection, p: Payload, r: Result<()>)
      requires Served(p)
      reads this, conn, conn.data
    {
      var (st, bag) := Answer(t0, bag0, p);
      State() == st.tables && broadcast == b0 + Announced(st.syncs) && conn.data.entries == bag &&
      (conn.State(), r) == WriteSyncSpec(SyncedTo(c0, Announced(st.syncs)), st.result)
    }

    /** `verifyPermission`: the connection's stored permissions hold every required flag. */
    function Permits(conn: Connection, required: Permissions.Mask): bool
      reads conn.data
    {
      VerifyPermission(conn.data.Get(PermissionsKey, Permissions.None), required)
    }

    /** `handlePing`. */
    method HandlePing(conn: Connection, p: Payload, size: nat) returns (r: Result<()>)
      requires p.Ping?
      modifies conn
      ensures Answered(old(State()), old(broadcast), old(conn.data.entries), old(conn.State()), conn, p, r)
    {
      r := conn.WriteSync(PingReply);
    }

    /** `handleAuthorize`: the permissions granted are stored in the connection's bag, then the reply is sent. */
    method HandleAuthorize(conn: Connection, p: Payload, size: nat) returns (r: Result<()>)
      requires p.Authorize?
      modifies conn, conn.data
      ensures Answered(old(State()), old(broadcast), old(conn.data.entries), old(conn.State()), conn, p, r)
    {
      var reply := SucceededReply(p.requestId);
      var permissions: U16 := 0;
      if p.token !in tokens {
        reply := SetErrorMsg(reply, Bytes(InvalidTokenMsg));
      } else {
        permissions := tokens[p.token];
      }
      conn.data.Put(PermissionsKey, permissions as bv16);
      r := conn.WriteSync(AuthorizeReply(reply, permissions));
    }

    /** `handleGetShiftsByDay`. */
    method HandleGetShiftsByDay(conn: Connection, p: Payload, size: nat) returns (r: Result<()>)
      requires p.GetShiftsByDay?
      modifies this, conn
      ensures Answered(old(State()), old(broadcast), old(conn.data.entries), old(conn.State()), conn, p, r)
    {
      var reply := SucceededReply(p.requestId);
      var found: set<Shift> := {};
      if !Permits(conn, Permissions.View) {
        reply := SetErrorMsg(reply, Bytes(UnauthorizedMsg));
      } else {
        found := ShiftsOfDay(p.date);
      }
      r := conn.WriteSync(GetShiftsReply(reply, p.date, found));
    }

    /** `handleInsertShift`: a thrown error becomes the reply's message. */
    method HandleInsertShift(conn: Connection, p: Payload, size: nat) returns (r: Result<()>)
      requires p.InsertShift?
      modifies this, conn
      ensures Answered(old(State()), old(broadcast), old(conn.data.entries), old(conn.State()), conn, p, r)
    {
      var b0 := broadcast;
      var reply := SucceededReply(p.requestId);
      var shift := p.shift;
      if !Permits(conn, Permissions.Insert) {
        reply := SetErrorMsg(reply, Bytes(UnauthorizedMsg));
      } else {
        var ret := InsertShift(p.shift, p.modifying);
        if ret.Ok? {
          shift := ret.value;
        } else {
          reply := SetErrorMsg(reply, What(ret.error));
        }
      }
      WriteToRequester(conn, broadcast[|b0|..]);
      r := conn.WriteSync(InsertShiftReply(reply, shift));
    }

    /** `handleDeleteShift`: the reply's success is whether a shift was removed. */
    method HandleDeleteShift(conn: Connection, p: Payload, size: nat) returns (r: Result<()>)
      requires p.DeleteShift?
      modifies this, conn
      ensures Answered(old(State()), old(broadcast), old(conn.data.entries), old(conn.State()), conn, p, r)
    {
      var b0 := broadcast;
      var reply := SucceededReply(p.requestId);
      if !Permits(conn, Permissions.Delete) {
        reply := SetErrorMsg(reply, Bytes(UnauthorizedMsg));
      } else {
        var found := DeleteShift(p.shiftId);
        reply := SetSuccess(reply, found);
      }
      WriteToRequester(conn, broadcast[|b0|..]);
      r := conn.WriteSync(DeleteShiftReply(reply, p.shiftId));
    }

    /** `handleGetWorkers`: the reply carries a copy of the whole worker table. */
    method HandleGetWorkers(conn: Connection, p: Payload, size: nat) returns (r: Result<()>)
      requires p.GetWorkers?
      modifies this, conn
      ensures Answered(old(State()), old(broadcast), old(conn.data.entries), old(conn.State()), conn, p, r)
    {
      var reply := SucceededReply(p.requestId);
      var all: map<U64, ShiftWorker> := map[];
      if !Permits(conn, Permissions.View) {
        reply := SetErrorMsg(reply, Bytes(UnauthorizedMsg));
      } else {
        all := workers;
      }
      r := conn.WriteSync(GetWorkersReply(reply, all));
    }

    /** `handleInsertWorker`: a thrown error becomes the reply's message. */
    method HandleInsertWorker(conn: Connection, p: Payload, size: nat) returns (r: Result<()>)
      requires p.InsertWorker?
      modifies this, conn
      ensures Answered(old(State()), old(broadcast), old(conn.data.entries), old(conn.State()), conn, p, r)
    {
      var b0 := broadcast;
      var reply := SucceededReply(p.requestId);
      var worker := p.worker;
      if !Permits(conn, Permissions.Insert) {
        reply := SetErrorMsg(reply, Bytes(UnauthorizedMsg));
      } else {
        var ret := InsertWorker(p.worker, p.modifying);
        if ret.Ok? {
          worker := ret.value;
        } else {
          reply := SetErrorMsg(reply, What(ret.error));
        }
      }
      WriteToRequester(conn, broadcast[|b0|..]);
      r := conn.WriteSync(InsertWorkerReply(reply, worker));
    }

    /** `handleDeleteWorker`: the reply's success is whether a worker was removed. */
    method HandleDeleteWorker(conn: Connection, p: Payload, size: nat) returns (r: Result<()>)
      requires p.DeleteWorker?
      modifies this, conn
      ensures Answered(old(State()), old(broadcast), old(conn.data.entries), old(conn.State()), conn, p, r)
    {
      var b0 := broadcast;
      var reply := SucceededReply(p.requestId);
      if !Permits(conn, Permissions.Delete) {
        reply := SetErrorMsg(reply, Bytes(UnauthorizedMsg));
      } else {
        var found := DeleteWorker(p.workerId);
        reply := SetSuccess(reply, found);
      }
      WriteToRequester(conn, broadcast[|b0|..]);
      r := conn.WriteSync(DeleteWorkerReply(reply, p.workerId));
    }

    /** Runs the handler a call names on its payload. */
    method Invoke(conn: Connection, c: Call) returns (r: Result<()>)
      requires Served(c.payload) && c.callback == HandlerOf(c.payload)
      modifies this, conn, conn.data
      ensures Answered(old(State()), old(broadcast), old(conn.data.entries), old(conn.State()), conn, c.payload, r)
    {
      var p := c.payload;
      if c.callback == PingHandler {
        r := HandlePing(conn, p, c.size);
      } else if c.callback == AuthorizeHandler {
        r := HandleAuthorize(conn, p, c.size);
      } else if c.callback == DeleteShiftHandler {
        r := HandleDeleteShift(conn, p, c.size);
      } else if c.callback == GetShiftsByDayHandler {
        r := HandleGetShiftsByDay(conn, p, c.size);
      } else if c.callback == GetWorkersHandler {
        r := HandleGetWorkers(conn, p, c.size);
      } else if c.callback == InsertShiftHandler {
        r := HandleInsertShift(conn, p, c.size);
      } else if c.callback == InsertWorkerHandler {
        r := HandleInsertWorker(conn, p, c.size);
      } else {
        r := HandleDeleteWorker(conn, p, c.size);
      }
    }

    /**
     * `onPayloadReceived`: the observer's dispatch by exact tag, then the
     * handler it names; a payload the manager does not serve changes nothing.
     */
    method OnPayloadReceived(conn: Connection, p: Payload, size: nat) returns (calls: seq<Call>, r: Result<()>)
      requires Valid()
      modifies this, conn, conn.data
      ensures Valid()
      ensures calls == Dispatch(HandlerTable(), p, size)
      ensures Served(p) ==> Answered(old(State()), old(broadcast), old(conn.data.entries), old(conn.State()), conn, p, r)
      ensures !Served(p) ==> calls == [] && r == Ok(()) && unchanged(this, conn, conn.data)
    {
      calls := observer.OnPayloadReceived(p, size);
      HandlerTableDispatch(p, size);
      r := Ok(());
      if calls != [] {
        r := Invoke(conn, calls[0]);
      }
    }
  }
}
