// Observers, request ids and length-prefixed framing of a connection
// (BaseLibrary/ConnectionBase.h, BaseLibrary/ConnectionBase.cpp, BaseLibrary/Connection.cpp,
// constants from BaseLibrary/net_constants.h).
//
// The socket is a value: whether it is connected, the bytes the peer has sent that are
// still waiting to be read, and how many more bytes it accepts before a send breaks.
// Every notification an observer receives is logged as an event, in order.

module Connections {
  import opened Wire
  import opened Errors
  import opened Binary
  import opened Registry
  import opened Packets
  import opened Bags
  import opened Serial
  import opened Models
  import Permissions

  const BUFFER_SIZE: nat := 8192
  const MAX_BUFFER_SIZE: nat := BUFFER_SIZE * 4
  /** The largest payload a frame may carry. */
  const MAX_PACKET_SIZE: nat := BUFFER_SIZE * 8

  const ClosedMsg: string := "Connection is closed"
  const CloseMsg: string := "Connection closed"
  const OversizeMsg: string := "Exceeded max packet size"
  const SendFailedMsg: string := "Connection broken (send failed)"
  const ReceiveFailedMsg: string := "Connection broken (receive failed)"
  const AsyncMsg: string := "This connection uses asynchronous reading"

  // ------------------------------------------------------------ observers

  /** A registered handler, by identity (the `std::function` the observer stores). */
  type Callback = nat

  /** One invocation of a handler with the payload and size it is given. */
  datatype Call = Call(callback: Callback, payload: Payload, size: nat)

  /** The handlers stored under a tag, in registration order; none when the tag has no entry. */
  function HandlersOf(handlers: map<Tag, seq<Callback>>, t: Tag): seq<Callback>
  {
    if t in handlers then handlers[t] else []
  }

  function CallsOf(cbs: seq<Callback>, p: Payload, size: nat): seq<Call>
  {
    seq(|cbs|, i requires 0 <= i < |cbs| => Call(cbs[i], p, size))
  }

  /** The invocations `onPayloadReceived` makes: the handlers under the payload's own tag, in order. */
  function Dispatch(handlers: map<Tag, seq<Callback>>, p: Payload, size: nat): seq<Call>
  {
    CallsOf(HandlersOf(handlers, TagOf(p)), p, size)
  }

  /** What is stored under any other tag has no bearing on a payload's dispatch. */
  lemma OtherTagsIgnored(handlers: map<Tag, seq<Callback>>, t: Tag, cbs: seq<Callback>, p: Payload, size: nat)
    requires t != TagOf(p)
    ensures Dispatch(handlers[t := cbs], p, size) == Dispatch(handlers, p, size)
  {
  }

  /** A payload's tag is never its base class's tag, so handlers for a base class never fire for it. */
  lemma BaseClassHandlersIgnored(handlers: map<Tag, seq<Callback>>, cbs: seq<Callback>, p: Payload, size: nat)
    ensures ClassParent(TagOf(p)) != TagOf(p)
    ensures Dispatch(handlers[ClassParent(TagOf(p)) := cbs], p, size) == Dispatch(handlers, p, size)
  {
    var c := TagOf(p);
    if c == TagDate {
      assert ClassParent(c) == TagUnknown;
    }
    OtherTagsIgnored(handlers, ClassParent(c), cbs, p, size);
  }

  /** A handler added under the payload's tag is called after every handler registered before it. */
  lemma AddedHandlerRunsLast(handlers: map<Tag, seq<Callback>>, cb: Callback, p: Payload, size: nat)
    ensures Dispatch(handlers[TagOf(p) := HandlersOf(handlers, TagOf(p)) + [cb]], p, size)
            == Dispatch(handlers, p, size) + [Call(cb, p, size)]
  {
    var before := HandlersOf(handlers, TagOf(p));
    assert HandlersOf(handlers[TagOf(p) := before + [cb]], TagOf(p)) == before + [cb];
    assert CallsOf(before + [cb], p, size) == CallsOf(before, p, size) + [Call(cb, p, size)];
  }

  /** After `removeHandlers` for the payload's tag, nothing is called for it. */
  lemma RemovedHandlersSilent(handlers: map<Tag, seq<Callback>>, p: Payload, size: nat)
    ensures Dispatch(handlers[TagOf(p) := []], p, size) == []
  {
  }

  /** `ConnectionObserver`: payload handlers listed per tag. */
  class Observer {
    var handlers: map<Tag, seq<Callback>>

    constructor()
      ensures handlers == map[]
    {
      handlers := map[];
    }

    /** `addHandler<T>`: appends the callback to the list under T's tag. */
    method AddHandler(t: Tag, cb: Callback)
      modifies this
      ensures handlers == old(handlers)[t := HandlersOf(old(handlers), t) + [cb]]
    {
      var cbs := if t in handlers then handlers[t] else [];
      handlers := handlers[t := cbs + [cb]];
    }

    /** `removeHandlers<T>`: empties the list under T's tag (creating it if absent). */
    method RemoveHandlers(t: Tag)
      modifies this
      ensures handlers == old(handlers)[t := []]
    {
      handlers := handlers[t := []];
    }

    /** `onPayloadReceived`: calls the handlers stored under the payload's own tag, in order. */
    method OnPayloadReceived(p: Payload, size: nat) returns (calls: seq<Call>)
      ensures calls == Dispatch(handlers, p, size)
    {
      calls := [];
      var t := TagOf(p);
      if t in handlers {
        var cbs := handlers[t];
        for i := 0 to |cbs|
          invariant calls == CallsOf(cbs[..i], p, size)
        {
          assert CallsOf(cbs[..i + 1], p, size) == CallsOf(cbs[..i], p, size) + [Call(cbs[i], p, size)];
          calls := calls + [Call(cbs[i], p, size)];
        }
        assert cbs[..|cbs|] == cbs;
      }
    }
  }

  /** `_observers.remove(x)`: every occurrence of x goes, the rest keep their order. */
  function Without(obs: seq<Observer>, x: Observer?): seq<Observer>
  {
    if obs == [] then []
    else (if obs[0] == x then [] else [obs[0]]) + Without(obs[1..], x)
  }

  lemma {:induction false} WithoutAppend(a: seq<Observer>, b: seq<Observer>, x: Observer?)
    ensures Without(a + b, x) == Without(a, x) + Without(b, x)
  {
    if a == [] {
      assert a + b == b;
    } else {
      assert (a + b)[0] == a[0];
      assert (a + b)[1..] == a[1..] + b;
      WithoutAppend(a[1..], b, x);
    }
  }

  /** Unsubscribing drops every subscription of x and keeps every other observer as often as it was subscribed. */
  lemma {:induction false} WithoutCounts(obs: seq<Observer>, x: Observer?, y: Observer)
    ensures multiset(Without(obs, x))[y] == if y == x then 0 else multiset(obs)[y]
  {
    if obs != [] {
      assert obs == [obs[0]] + obs[1..];
      WithoutCounts(obs[1..], x, y);
    }
  }

  /** Subscribing and then unsubscribing the same observer leaves no trace of it. */
  lemma SubscribeThenUnsubscribe(obs: seq<Observer>, x: Observer)
    ensures Without(obs + [x], x) == Without(obs, x)
  {
    WithoutAppend(obs, [x], x);
    assert Without([x], x) == [];
  }

  // -------------------------------------------------------------- sockets

  /**
   * A socket: its handle (the identity of the `PSocket*`), whether `p_socket_is_connected` holds,
   * the bytes waiting to be received, and how many more bytes a send may move before
   * the socket reports failure.
   */
  datatype Socket = Socket(handle: nat, connected: bool, inbox: seq<byte>, accepts: nat)

  /** The handle a `PSocket*` compares by; -1 for `nullptr`. */
  function HandleOf(s: Option<Socket>): int
  {
    if s.Some? then s.value.handle else -1
  }

  /** What an observer is told. */
  datatype Notice = Connected | Disconnected(error: Error) | Sent(payload: Payload, size: nat) | Received(payload: Payload, size: nat)

  datatype Event = Event(observer: Observer, notice: Notice)

  /** One notice to each observer, in subscription order. */
  function Broadcast(obs: seq<Observer>, n: Notice): seq<Event>
  {
    seq(|obs|, i requires 0 <= i < |obs| => Event(obs[i], n))
  }

  lemma BroadcastStep(obs: seq<Observer>, i: nat, n: Notice)
    requires i < |obs|
    ensures Broadcast(obs[..i + 1], n) == Broadcast(obs[..i], n) + [Event(obs[i], n)]
  {
  }

  /** The state of a connection: its socket, id, request counter, observers, stream states and what it has done. */
  datatype ConnState = ConnState(
    socket: Option<Socket>,
    id: int,
    lastRequestId: Int32,
    observers: seq<Observer>,
    readingAsync: bool,
    sendGood: bool,
    receiveGood: bool,
    sent: seq<byte>,
    events: seq<Event>)

  /** `isAlive`: a socket is held and connected. */
  predicate Alive(s: ConnState)
  {
    s.socket.Some? && s.socket.value.connected
  }

  /** What reading and writing never change: the id, the request counter, the observers and the reading mode. */
  predicate SameSetup(s: ConnState, t: ConnState)
  {
    t.id == s.id && t.lastRequestId == s.lastRequestId && t.observers == s.observers && t.readingAsync == s.readingAsync
  }

  /**
   * `closeError(e)`: while a socket is held, `onDisconnected(e)` runs `cleanup` (which
   * releases the socket) and then tells every observer; without a socket nothing happens.
   */
  function Disconnect(s: ConnState, e: Error): (t: ConnState)
    ensures t.socket.None? && !Alive(t)
    ensures SameSetup(s, t) && t.sendGood == s.sendGood && t.receiveGood == s.receiveGood && t.sent == s.sent
  {
    if s.socket.Some? then s.(socket := None, events := s.events + Broadcast(s.observers, Disconnected(e)))
    else s
  }

  /** A connection reports its disconnection at most once: a second close is a no-op. */
  lemma DisconnectAtMostOnce(s: ConnState, e1: Error, e2: Error)
    ensures Disconnect(Disconnect(s, e1), e2) == Disconnect(s, e1)
    ensures s.socket.None? ==> Disconnect(s, e1) == s
  {
  }

  /** `newRequestId`: pre-increments the `int` counter (wrapping), and once more when that gives 0. */
  function NextRequestId(last: Int32): (id: Int32)
    ensures id != 0
    ensures last != -1 && last != 0x7fff_ffff ==> id == last + 1
    ensures last == -1 ==> id == 1
    ensures last == 0x7fff_ffff ==> id == -0x8000_0000
  {
    var id := Wrap32(last + 1);
    if id != 0 then id else Wrap32(id + 1)
  }

  /** The counter after k ids have been handed out. */
  function IdsAfter(last: Int32, k: nat): Int32
  {
    if k == 0 then last else NextRequestId(IdsAfter(last, k - 1))
  }

  /** From a fresh connection the ids are 1, 2, 3, ... up to the largest `int`. */
  lemma {:induction false} IdsCountFromOne(k: nat)
    requires k <= 0x7fff_ffff
    ensures IdsAfter(0, k) == k
  {
    if k > 0 {
      IdsCountFromOne(k - 1);
    }
  }

  /** `sendBuffer`: moves the bytes to the socket; when it stops accepting, the connection closes with an error. */
  function SendSpec(s: ConnState, bytes: seq<byte>): (res: (ConnState, Result<()>))
    requires s.socket.Some?
    ensures SameSetup(s, res.0) && res.0.sendGood == s.sendGood && res.0.receiveGood == s.receiveGood
    ensures res.1.Ok? <==> |bytes| <= s.socket.value.accepts
  {
    var sock := s.socket.value;
    if |bytes| <= sock.accepts then
      (s.(socket := Some(sock.(accepts := sock.accepts - |bytes|)), sent := s.sent + bytes), Ok(()))
    else
      var e := RuntimeError(SendFailedMsg);
      (Disconnect(s.(socket := Some(sock.(accepts := 0)), sent := s.sent + bytes[..sock.accepts]), e), Fail(e))
  }

  /** `receiveFromSocket(n)`: the next n bytes, or, when the peer stops short, a close with an error. */
  function ReceiveSpec(s: ConnState, n: nat): (res: (ConnState, Result<seq<byte>>))
    requires s.socket.Some?
    ensures res.1.Ok? ==> |res.1.value| == n && res.0.socket.Some?
    ensures SameSetup(s, res.0) && res.0.sendGood == s.sendGood && res.0.receiveGood == s.receiveGood
  {
    var sock := s.socket.value;
    if n <= |sock.inbox| then
      (s.(socket := Some(sock.(inbox := sock.inbox[n..]))), Ok(sock.inbox[..n]))
    else
      var e := RuntimeError(ReceiveFailedMsg);
      (Disconnect(s.(socket := Some(sock.(inbox := []))), e), Fail(e))
  }

  // -------------------------------------------------------------- framing

  /** The bytes of a frame: the payload's length as a `content_len_t`, then the payload. */
  function Frame(body: seq<byte>): (f: seq<byte>)
    ensures |f| == CONTENT_LEN_SIZE + |body| && f[CONTENT_LEN_SIZE..] == body
  {
    LE(|body|, CONTENT_LEN_SIZE) + body
  }

  /** The bytes a payload serializes to. */
  function Body(p: Payload): seq<byte>
  {
    Flatten(Encode(p))
  }

  /**
   * The part of `writeSync` after the liveness check, as written: the payload is
   * serialized (the writes `ops`) into the room after the header slot
   * (`MAX_PACKET_SIZE` bytes); what was written goes on to `SendBody`.
   */
  function PutFrame(s: ConnState, ops: seq<WriteOp>, p: Payload): (res: (ConnState, Result<()>))
    requires Alive(s)
    ensures SameSetup(s, res.0)
  {
    var body := Run(Writer([], MAX_PACKET_SIZE, s.sendGood), ops);
    var s1 := s.(sendGood := body.state.good);
    if body.Threw? then (s1, Fail(body.error))
    else SendBody(s1, p, body.state.written)
  }

  /** The length check, the header written over its slot, and the send of both. */
  function SendBody(s: ConnState, p: Payload, body: seq<byte>): (res: (ConnState, Result<()>))
    requires Alive(s)
    ensures SameSetup(s, res.0)
  {
    if |body| > MAX_PACKET_SIZE then (s, Fail(RuntimeError(OversizeMsg)))
    else
      var header := Run(Writer([], CONTENT_LEN_SIZE + MAX_PACKET_SIZE, s.sendGood), UIntOps(|body|, CONTENT_LEN_SIZE));
      var s1 := s.(sendGood := header.state.good);
      if header.Threw? then (s1, Fail(header.error))
      else SendAndTell(s1, header.state.written + body, Sent(p, |body|))
  }

  /** `sendBuffer`, then `onPayloadSent` to every observer once the bytes are out. */
  function SendAndTell(s: ConnState, bytes: seq<byte>, n: Notice): (res: (ConnState, Result<()>))
    requires s.socket.Some?
    ensures SameSetup(s, res.0)
  {
    var (t, r) := SendSpec(s, bytes);
    if r.Fail? then (t, r) else (t.(events := t.events + Broadcast(t.observers, n)), Ok(()))
  }

  /** `writeSync` as written. */
  function WriteSyncAsWrittenSpec(s: ConnState, p: Payload): (res: (ConnState, Result<()>))
    ensures SameSetup(s, res.0)
  {
    if !Alive(s) then (s, Fail(RuntimeError(ClosedMsg))) else PutFrame(s, Encode(p), p)
  }

  /** `writeSync` with the size check made before the payload touches the stream. */
  function WriteSyncSpec(s: ConnState, p: Payload): (res: (ConnState, Result<()>))
    ensures SameSetup(s, res.0)
  {
    if !Alive(s) then (s, Fail(RuntimeError(ClosedMsg)))
    else if |Body(p)| > MAX_PACKET_SIZE then (s, Fail(RuntimeError(OversizeMsg)))
    else PutFrame(s, Encode(p), p)
  }

  /** A failed write reports `invalid destination stream` and leaves a failed stream. */
  lemma {:induction false} RunFailure(w: Writer, ops: seq<WriteOp>)
    ensures Run(w, ops).Threw? ==> Run(w, ops).error == RuntimeError(BadStream) && !Run(w, ops).state.good
    decreases |ops|
  {
    if ops != [] && !(ops[0].Checked? && !w.good) {
      RunFailure(Put(w, ops[0].bytes), ops[1..]);
    }
  }

  /** A serializer never writes past the room of the stream it writes to. */
  lemma {:induction false} RunStaysInRoom(w: Writer, ops: seq<WriteOp>)
    ensures |Run(w, ops).state.written| <= |w.written| + w.room
    decreases |ops|
  {
    if ops != [] && !(ops[0].Checked? && !w.good) {
      RunStaysInRoom(Put(w, ops[0].bytes), ops[1..]);
    }
  }

  /** On a failed stream a serializer writes nothing. */
  lemma {:induction false} RunOnFailedStream(w: Writer, ops: seq<WriteOp>)
    requires !w.good
    ensures Run(w, ops).state == w
    decreases |ops|
  {
    if ops != [] && !ops[0].Checked? {
      RunOnFailedStream(Put(w, ops[0].bytes), ops[1..]);
    }
  }

  /** The check `contentLength > MAX_PACKET_SIZE` can never fire: the room after the header slot bounds the length. */
  lemma PutFrameNeverOversize(s: ConnState, ops: seq<WriteOp>, p: Payload)
    requires Alive(s)
    ensures PutFrame(s, ops, p).1 != Fail(RuntimeError(OversizeMsg))
  {
    var w := Writer([], MAX_PACKET_SIZE, s.sendGood);
    RunStaysInRoom(w, ops);
    RunFailure(w, ops);
    var body := Run(w, ops);
    if body.Done? {
      var hw := Writer([], CONTENT_LEN_SIZE + MAX_PACKET_SIZE, body.state.good);
      RunFailure(hw, UIntOps(|body.state.written|, CONTENT_LEN_SIZE));
    }
    assert BadStream[0] != OversizeMsg[0];
    assert SendFailedMsg[0] != OversizeMsg[0];
  }

  /** As written, `writeSync` never reports an oversized payload, whatever its size. */
  lemma OversizeCheckIsDead(s: ConnState, p: Payload)
    ensures WriteSyncAsWrittenSpec(s, p).1 != Fail(RuntimeError(OversizeMsg))
  {
    if Alive(s) {
      PutFrameNeverOversize(s, Encode(p), p);
    }
  }

  /** Writes that overflow the room fail the stream, and the header write then refuses it. */
  lemma PutFrameOverflow(s: ConnState, ops: seq<WriteOp>, p: Payload)
    requires Alive(s) && s.sendGood && |Flatten(ops)| > MAX_PACKET_SIZE
    ensures PutFrame(s, ops, p) == (s.(sendGood := false), Fail(RuntimeError(BadStream)))
  {
    var w := Writer([], MAX_PACKET_SIZE, true);
    RunOverflows(w, ops);
    RunFailure(w, ops);
    RunStaysInRoom(w, ops);
  }

  /** As written, a payload too large for a frame fails the send stream: `invalid destination stream`, nothing sent. */
  lemma OversizePoisonsSendStream(s: ConnState, p: Payload)
    requires Alive(s) && s.sendGood && |Body(p)| > MAX_PACKET_SIZE
    ensures WriteSyncAsWrittenSpec(s, p) == (s.(sendGood := false), Fail(RuntimeError(BadStream)))
  {
    PutFrameOverflow(s, Encode(p), p);
  }

  /** On a failed stream nothing is written and the failure is reported. */
  lemma PutFrameOnFailedStream(s: ConnState, ops: seq<WriteOp>, p: Payload)
    requires Alive(s) && !s.sendGood
    ensures PutFrame(s, ops, p) == (s, Fail(RuntimeError(BadStream)))
  {
    var w := Writer([], MAX_PACKET_SIZE, false);
    RunOnFailedStream(w, ops);
    RunFailure(w, ops);
    assert s.(sendGood := false) == s;
  }

  /** As written, once the send stream has failed every later `writeSync` fails the same way and sends nothing. */
  lemma FailedSendStreamRefusesAll(s: ConnState, p: Payload)
    requires Alive(s) && !s.sendGood
    ensures WriteSyncAsWrittenSpec(s, p) == (s, Fail(RuntimeError(BadStream)))
    ensures WriteSyncSpec(s, p).1.Fail?
  {
    PutFrameOnFailedStream(s, Encode(p), p);
  }

  /** On a good stream, writes that fit are sent as exactly their frame, and each observer hears of it. */
  lemma PutFrameSends(s: ConnState, ops: seq<WriteOp>, p: Payload)
    requires Alive(s) && s.sendGood && |Flatten(ops)| <= MAX_PACKET_SIZE
    ensures PutFrame(s, ops, p) == SendAndTell(s, Frame(Flatten(ops)), Sent(p, |Flatten(ops)|))
  {
    var body := Flatten(ops);
    RunFits(Writer([], MAX_PACKET_SIZE, true), ops);
    assert [] + body == body;
    assert s.(sendGood := true) == s;
    assert PutFrame(s, ops, p) == SendBody(s, p, body);
    var n := |body|;
    assert Flatten(UIntOps(n, CONTENT_LEN_SIZE)) == LE(n, CONTENT_LEN_SIZE);
    RunFits(Writer([], CONTENT_LEN_SIZE + MAX_PACKET_SIZE, true), UIntOps(n, CONTENT_LEN_SIZE));
    assert [] + LE(n, CONTENT_LEN_SIZE) == LE(n, CONTENT_LEN_SIZE);
  }

  /** On a good stream, a payload that fits is sent as exactly its frame, and each observer hears of it. */
  lemma WriteSyncSendsFrame(s: ConnState, p: Payload)
    requires Alive(s) && s.sendGood && |Body(p)| <= MAX_PACKET_SIZE
    ensures var sock := s.socket.value;
            var f := Frame(Body(p));
            WriteSyncSpec(s, p) ==
              if |f| <= sock.accepts then
                (s.(socket := Some(sock.(accepts := sock.accepts - |f|)), sent := s.sent + f,
                    events := s.events + Broadcast(s.observers, Sent(p, |Body(p)|))), Ok(()))
              else
                (Disconnect(s.(socket := Some(sock.(accepts := 0)), sent := s.sent + f[..sock.accepts]),
                            RuntimeError(SendFailedMsg)), Fail(RuntimeError(SendFailedMsg)))
  {
    PutFrameSends(s, Encode(p), p);
  }

  /** With the size check first, a write never leaves a good send stream failed. */
  lemma WriteSyncKeepsStreamGood(s: ConnState, p: Payload)
    requires s.sendGood
    ensures WriteSyncSpec(s, p).0.sendGood
    ensures Alive(s) && |Body(p)| > MAX_PACKET_SIZE ==> WriteSyncSpec(s, p) == (s, Fail(RuntimeError(OversizeMsg)))
  {
    if Alive(s) && |Body(p)| <= MAX_PACKET_SIZE {
      WriteSyncSendsFrame(s, p);
    }
  }

  /** The corrected and the as-written `writeSync` differ exactly where a live connection is asked to send a payload too large for a frame. */
  lemma WritesAgree(s: ConnState, p: Payload)
    ensures WriteSyncSpec(s, p) == WriteSyncAsWrittenSpec(s, p) <==> !Alive(s) || |Body(p)| <= MAX_PACKET_SIZE
  {
    if Alive(s) && |Body(p)| > MAX_PACKET_SIZE {
      if s.sendGood {
        OversizePoisonsSendStream(s, p);
      } else {
        FailedSendStreamRefusesAll(s, p);
      }
      assert BadStream[0] != OversizeMsg[0];
    }
  }

  /**
   * `readSyncInternal`: the header, then the body, then the payload built from it.  A
   * `runtime_error` while decoding is dropped (null is returned); any other exception
   * propagates.  `strict` adds what the code leaves out: the receive stream is cleared
   * before each frame, and a payload whose decoding ran past the frame is dropped.
   */
  function ReadFrameWith(s: ConnState, strict: bool): (res: (ConnState, Result<Option<Payload>>))
    ensures SameSetup(s, res.0) && res.0.sendGood == s.sendGood
  {
    if !Alive(s) then (s, Fail(RuntimeError(ClosedMsg)))
    else
      var s0 := if strict then s.(receiveGood := true) else s;
      var (s1, h) := ReceiveSpec(s0, CONTENT_LEN_SIZE);
      if h.Fail? then (s1, Fail(h.error))
      else
        var len := ReadUInt(Reader(h.value, s1.receiveGood), CONTENT_LEN_SIZE);
        if len.Threw? then (s1, Fail(len.error))
        else if len.value > MAX_PACKET_SIZE then
          var e := RuntimeError(OversizeMsg);
          (Disconnect(s1, e), Fail(e))
        else ReadBody(s1, len.value, strict)
  }

  /** The body of a frame whose header announced `length` bytes, and the payload built from it. */
  function ReadBody(s: ConnState, length: nat, strict: bool): (res: (ConnState, Result<Option<Payload>>))
    requires s.socket.Some?
    ensures SameSetup(s, res.0) && res.0.sendGood == s.sendGood
  {
    var (s1, b) := ReceiveSpec(s, length);
    if b.Fail? then (s1, Fail(b.error))
    else Deliver(s1, DecodePayload(Reader(b.value, s1.receiveGood)), length, strict)
  }

  /** A header announcing a length within bounds hands over to the body read. */
  lemma HeaderThenBody(s: ConnState, n: nat, rest: seq<byte>, strict: bool)
    requires Alive(s) && (strict || s.receiveGood) && n < Pow256(CONTENT_LEN_SIZE)
    requires s.socket.value.inbox == LE(n, CONTENT_LEN_SIZE) + rest
    ensures var t := s.(socket := Some(s.socket.value.(inbox := rest)), receiveGood := true);
            ReadFrameWith(s, strict) ==
              if n > MAX_PACKET_SIZE then (Disconnect(t, RuntimeError(OversizeMsg)), Fail(RuntimeError(OversizeMsg)))
              else ReadBody(t, n, strict)
  {
    var bytes := LE(n, CONTENT_LEN_SIZE) + rest;
    assert bytes[..CONTENT_LEN_SIZE] == LE(n, CONTENT_LEN_SIZE) + [];
    assert bytes[CONTENT_LEN_SIZE..] == rest;
    ReadUIntRoundTrip(n, CONTENT_LEN_SIZE, []);
  }

  /** The body read takes exactly the announced bytes and decodes them. */
  lemma BodyThenDecode(s: ConnState, bytes: seq<byte>, rest: seq<byte>, strict: bool)
    requires s.socket.Some? && s.socket.value.inbox == bytes + rest
    ensures ReadBody(s, |bytes|, strict) ==
              Deliver(s.(socket := Some(s.socket.value.(inbox := rest))), DecodePayload(Reader(bytes, s.receiveGood)), |bytes|, strict)
  {
    assert (bytes + rest)[..|bytes|] == bytes && (bytes + rest)[|bytes|..] == rest;
  }

  /** What follows a decode: the stream keeps the reader's state; a payload is announced and returned. */
  function Deliver(s: ConnState, o: Decoded<Payload>, length: nat, strict: bool): (res: (ConnState, Result<Option<Payload>>))
    ensures SameSetup(s, res.0) && res.0.sendGood == s.sendGood && res.0.socket == s.socket
    ensures res.1.Fail? ==> !res.1.error.RuntimeError?
  {
    var s1 := s.(receiveGood := o.state.good);
    match o
    case Done(p, st) =>
      if strict && !st.good then (s1, Ok(None))
      else (s1.(events := s1.events + Broadcast(s1.observers, Received(p, length))), Ok(Some(p)))
    case Threw(RuntimeError(_), _) => (s1, Ok(None))
    case Threw(e, _) => (s1, Fail(e))
  }

  /**
   * On a good receive stream the strict read and the read as written agree,
   * unless the read as written leaves the receive stream failed.
   */
  lemma ReadsAgree(s: ConnState)
    requires s.receiveGood
    ensures ReadFrameWith(s, false).0.receiveGood ==> ReadFrameWith(s, true) == ReadFrameWith(s, false)
  {
  }

  /** `readSync`: refused while a background reader owns the connection. */
  function ReadSyncSpec(s: ConnState): (ConnState, Result<Option<Payload>>)
  {
    if s.readingAsync then (s, Fail(LogicError(AsyncMsg))) else ReadFrameWith(s, true)
  }

  /** The frame `writeSync` sends for a payload is read back as that payload, and each observer hears of it. */
  lemma FrameRoundTrip(s: ConnState, p: Payload, rest: seq<byte>)
    requires Alive(s) && ValidPayload(p) && |Body(p)| <= MAX_PACKET_SIZE
    requires s.socket.value.inbox == Frame(Body(p)) + rest
    ensures ReadFrameWith(s, true) ==
              (s.(socket := Some(s.socket.value.(inbox := rest)), receiveGood := true,
                  events := s.events + Broadcast(s.observers, Received(p, |Body(p)|))), Ok(Some(p)))
  {
    var body := Body(p);
    Pow256Values();
    HeaderThenBody(s, |body|, body + rest, true);
    assert Frame(body) + rest == LE(|body|, CONTENT_LEN_SIZE) + (body + rest);
    var t := s.(socket := Some(s.socket.value.(inbox := body + rest)), receiveGood := true);
    BodyThenDecode(t, body, rest, true);
    PayloadRoundTrip(p, []);
    assert body + [] == body;
  }

  /** A header announcing more than `MAX_PACKET_SIZE` closes the connection before any body byte is read. */
  lemma OversizeHeaderCloses(s: ConnState, n: nat, rest: seq<byte>, strict: bool)
    requires Alive(s) && (strict || s.receiveGood) && MAX_PACKET_SIZE < n < Pow256(CONTENT_LEN_SIZE)
    requires s.socket.value.inbox == LE(n, CONTENT_LEN_SIZE) + rest
    ensures ReadFrameWith(s, strict) ==
              (Disconnect(s.(socket := Some(s.socket.value.(inbox := rest)), receiveGood := true), RuntimeError(OversizeMsg)),
               Fail(RuntimeError(OversizeMsg)))
  {
    HeaderThenBody(s, n, rest, strict);
  }

  /** A frame carrying a `C2S_GetWorkers` whose request id is cut after its first byte. */
  const TruncatedBody: seq<byte> := [TagC2SGetWorkers, 7]

  /** The truncated frame's header is read normally and its two bytes decode as a packet with a zero-filled id. */
  lemma TruncatedFrameRead(s: ConnState, rest: seq<byte>, strict: bool)
    requires Alive(s) && (strict || s.receiveGood)
    requires s.socket.value.inbox == Frame(TruncatedBody) + rest
    ensures ReadFrameWith(s, strict) ==
              Deliver(s.(socket := Some(s.socket.value.(inbox := rest)), receiveGood := true),
                      Done(GetWorkers(7), Reader([], false)), 2, strict)
  {
    Pow256Values();
    HeaderThenBody(s, 2, TruncatedBody + rest, strict);
    assert Frame(TruncatedBody) + rest == LE(2, CONTENT_LEN_SIZE) + (TruncatedBody + rest);
    var t := s.(socket := Some(s.socket.value.(inbox := TruncatedBody + rest)), receiveGood := true);
    BodyThenDecode(t, TruncatedBody, rest, strict);
    TruncatedDecode();
  }

  /** As written, the truncated frame yields a packet with a zero-filled id and leaves the receive stream failed. */
  lemma TruncatedFrameAccepted(s: ConnState, rest: seq<byte>)
    requires Alive(s) && s.receiveGood
    requires s.socket.value.inbox == Frame(TruncatedBody) + rest
    ensures ReadFrameWith(s, false).1 == Ok(Some(GetWorkers(7)))
    ensures !ReadFrameWith(s, false).0.receiveGood
  {
    TruncatedFrameRead(s, rest, false);
  }

  lemma TruncatedDecode()
    ensures DecodePayload(Reader(TruncatedBody, true)) == Done(GetWorkers(7), Reader([], false))
  {
    var r := Reader(TruncatedBody, true);
    ModelNewAnyInstance(TagC2SGetWorkers);
    assert NewAnyInstanceFrom(ModelTypes(), r) == Done(TagC2SGetWorkers, r);
    CheckTagAccepts(TagC2SGetWorkers, TagC2SGetWorkers, [7]);
    assert ReadUInt(Reader([7], true), 4) == Done(7, Reader([], false)) by {
      assert RawRead(Reader([7], true), 4) == ([7] + Zeros(3), Reader([], false));
      assert FromLE([7] + Zeros(3)) == 7 by {
        assert ([7] + Zeros(3))[1..] == Zeros(3);
        assert Zeros(3)[1..] == Zeros(2) && Zeros(2)[1..] == Zeros(1) && Zeros(1)[1..] == [];
      }
    }
    assert DecodeAs(TagC2SGetWorkers, r) == DecodeGetWorkers(r);
  }

  /** As written, after a failed receive stream every later read fails at the header, outside the handler. */
  lemma FailedReceiveStreamRefusesAll(s: ConnState)
    requires Alive(s) && !s.receiveGood && |s.socket.value.inbox| >= CONTENT_LEN_SIZE
    ensures ReadFrameWith(s, false) ==
              (s.(socket := Some(s.socket.value.(inbox := s.socket.value.inbox[CONTENT_LEN_SIZE..]))), Fail(RuntimeError(BadStream)))
  {
  }

  /** Clearing the stream per frame, a truncated frame is dropped and the stream failure never escapes. */
  lemma StrictReadRecovers(s: ConnState, rest: seq<byte>)
    requires Alive(s) && s.socket.value.inbox == Frame(TruncatedBody) + rest
    ensures ReadFrameWith(s, true).1 == Ok(None)
    ensures ReadFrameWith(s, true).0.socket == Some(s.socket.value.(inbox := rest))
    ensures ReadFrameWith(ReadFrameWith(s, true).0, true).1 != Fail(RuntimeError(BadStream))
  {
    TruncatedFrameRead(s, rest, true);
    StrictReadNeverBadStream(ReadFrameWith(s, true).0);
  }

  /** Clearing the stream per frame, no read ever fails with the stream-state error. */
  lemma StrictReadNeverBadStream(s: ConnState)
    ensures ReadFrameWith(s, true).1 != Fail(RuntimeError(BadStream))
  {
    assert BadStream[0] != ClosedMsg[0] && BadStream[0] != ReceiveFailedMsg[0] && BadStream[0] != OversizeMsg[0];
  }

  // ----------------------------------------------------------- requests

  /** `writeRequestSync`: stamps the packet with a fresh id, writes it, and returns the id. */
  function WriteRequestSpec(s: ConnState, p: Payload): (res: (ConnState, Payload, Result<Int32>))
    requires IsTrackable(p)
    ensures IsTrackable(res.1) && TagOf(res.1) == TagOf(p)
    ensures RequestId(res.1) == res.0.lastRequestId == NextRequestId(s.lastRequestId)
    ensures res.2.Ok? ==> res.2.value == RequestId(res.1)
  {
    var id := NextRequestId(s.lastRequestId);
    var q := WithRequestId(p, id);
    var (t, r) := WriteSyncSpec(s.(lastRequestId := id), q);
    (t, q, if r.Ok? then Ok(id) else Fail(r.error))
  }

  /** `writeReplySync(p, requestId)`: a nonzero id is stamped on the packet, 0 keeps its own. */
  function WriteReplySpec(s: ConnState, p: Payload, requestId: Int32): (res: (ConnState, Payload, Result<()>))
    requires IsTrackable(p)
    ensures IsTrackable(res.1)
    ensures RequestId(res.1) == if requestId != 0 then requestId else RequestId(p)
    ensures TagOf(res.1) == TagOf(p)
  {
    var q := if requestId != 0 then WithRequestId(p, requestId) else p;
    var (t, r) := WriteSyncSpec(s, q);
    (t, q, r)
  }

  /** Two requests written in a row carry different ids, the second the successor of the first. */
  lemma RequestsGetSuccessiveIds(s: ConnState, p: Payload, q: Payload)
    requires IsTrackable(p) && IsTrackable(q)
    ensures var (t, p1, _) := WriteRequestSpec(s, p);
            var (_, q1, _) := WriteRequestSpec(t, q);
            RequestId(p1) != RequestId(q1) && RequestId(q1) == NextRequestId(RequestId(p1))
  {
    var (t, p1, _) := WriteRequestSpec(s, p);
    var id := RequestId(p1);
    if id == 0x7fff_ffff {
      assert NextRequestId(id) == -0x8000_0000;
    }
  }

  // ------------------------------------------------------------ connect

  /**
   * `connect(socket)`: a different live socket is closed first; if the new socket is
   * alive it takes the next connection id and `onConnected` runs (a `Ping` is written,
   * then each observer is told while the connection is alive).  Returns the new state,
   * the next value of `LastId`, and the id or the exception.
   */
  function ConnectSpec(s: ConnState, sock: Option<Socket>, lastId: int): (res: (ConnState, int, Result<int>))
    ensures res.0.observers == s.observers && res.0.lastRequestId == s.lastRequestId
    ensures sock.Some? && sock.value.connected ==> res.0.id == lastId && res.1 == lastId + 1
    ensures !(sock.Some? && sock.value.connected) ==> res.0.id == s.id && res.1 == lastId && res.2 == Ok(s.id)
  {
    var s2 := Attach(s, sock);
    if !Alive(s2) then (s2, lastId, Ok(s2.id))
    else
      var (s3, w) := OnConnectedSpec(s2.(id := lastId));
      (s3, lastId + 1, if w.Fail? then Fail(w.error) else Ok(lastId))
  }

  /** The first half of `connect(socket)`: a different live socket is closed, then the new one is held. */
  function Attach(s: ConnState, sock: Option<Socket>): (t: ConnState)
    ensures t.socket == sock && SameSetup(s, t)
  {
    var s1 := if HandleOf(sock) != HandleOf(s.socket) && Alive(s) then Disconnect(s, RuntimeError(CloseMsg)) else s;
    s1.(socket := sock)
  }

  /** `onConnected`: a `Ping` is written; once it is out, every observer is told while the connection is alive. */
  function OnConnectedSpec(s: ConnState): (res: (ConnState, Result<()>))
    ensures SameSetup(s, res.0)
  {
    var (t, w) := WriteSyncSpec(s, Ping);
    if w.Fail? then (t, w) else (Announce(t), w)
  }

  function Announce(s: ConnState): (t: ConnState)
    ensures SameSetup(s, t)
  {
    s.(events := s.events + (if Alive(s) then Broadcast(s.observers, Connected) else []))
  }

  /** Each successful connect takes the next id, so ids of live connections strictly increase. */
  lemma ConnectIdsIncrease(s: ConnState, a: Socket, b: Socket, lastId: int)
    requires a.connected && b.connected
    ensures var (s1, n1, _) := ConnectSpec(s, Some(a), lastId);
            var (s2, n2, _) := ConnectSpec(s1, Some(b), n1);
            s1.id == lastId && n1 == lastId + 1 && s2.id == n1 && n2 == n1 + 1 && s1.id < s2.id
  {
  }

  /** Connecting a dead socket assigns no id and tells nobody. */
  lemma ConnectDeadSocket(s: ConnState, sock: Socket, lastId: int)
    requires !sock.connected && !Alive(s)
    ensures ConnectSpec(s, Some(sock), lastId) == (s.(socket := Some(sock)), lastId, Ok(s.id))
  {
  }

  // ---------------------------------------------------------- the class

  /** `ConnectionBase::LastId`: the id the next connection to come alive receives. */
  class IdCounter {
    var lastId: int

    constructor()
      ensures lastId == 0
    {
      lastId := 0;
    }
  }

  /** `Connection`: a socket wrapped with observers, request ids and framed reads and writes. */
  class Connection {
    var socket: Option<Socket>
    var id: int
    var lastRequestId: Int32
    var observers: seq<Observer>
    var readingAsync: bool
    /** `good()` of `_sendStream` and of `_receiveStream`. */
    var sendGood: bool
    var receiveGood: bool
    /** Every byte handed to a socket, in order. */
    var sent: seq<byte>
    /** Every notification delivered to an observer, in order. */
    var events: seq<Event>
    /** `_data`: per-connection values (the server keeps the caller's permissions here). */
    const data: DataBag<Permissions.Mask>

    function State(): ConnState
      reads this
    {
      ConnState(socket, id, lastRequestId, observers, readingAsync, sendGood, receiveGood, sent, events)
    }

    method Load(t: ConnState)
      modifies this
      ensures State() == t
    {
      socket, id, lastRequestId, observers := t.socket, t.id, t.lastRequestId, t.observers;
      readingAsync, sendGood, receiveGood, sent, events := t.readingAsync, t.sendGood, t.receiveGood, t.sent, t.events;
    }

    /** `Connection()`: no socket, id -1, request counter 0, good streams, an empty bag. */
    constructor()
      ensures State() == ConnState(None, -1, 0, [], false, true, true, [], [])
      ensures fresh(data) && data.entries == map[]
    {
      socket, id, lastRequestId, observers := None, -1, 0, [];
      readingAsync, sendGood, receiveGood, sent, events := false, true, true, [], [];
      data := new DataBag<Permissions.Mask>();
    }

    predicate IsAlive()
      reads this
    {
      Alive(State())
    }

    /** `assertConnected`: `runtime_error` when the connection is not alive. */
    function AssertConnected(): (r: Result<()>)
      reads this
      ensures r.Ok? <==> Alive(State())
      ensures r.Fail? ==> r.error == RuntimeError(ClosedMsg)
    {
      if socket.Some? && socket.value.connected then Ok(()) else Fail(RuntimeError(ClosedMsg))
    }

    /** `subscribe`: appends a non-null observer (duplicates allowed). */
    method Subscribe(obs: Observer?)
      modifies this
      ensures State() == old(State()).(observers := if obs == null then old(observers) else old(observers) + [obs])
    {
      if obs != null {
        observers := observers + [obs];
      }
    }

    /** `unsubscribe`: removes every subscription of the observer. */
    method Unsubscribe(obs: Observer?)
      modifies this
      ensures State() == old(State()).(observers := Without(old(observers), obs))
    {
      var all := observers;
      var kept: seq<Observer> := [];
      for i := 0 to |all|
        invariant kept == Without(all[..i], obs)
        invariant State() == old(State())
      {
        WithoutAppend(all[..i], [all[i]], obs);
        assert all[..i + 1] == all[..i] + [all[i]];
        if all[i] != obs {
          kept := kept + [all[i]];
        }
      }
      assert all[..|all|] == all;
      observers := kept;
    }

    /** `newRequestId`. */
    method NewRequestId() returns (rid: Int32)
      modifies this
      ensures rid == NextRequestId(old(lastRequestId))
      ensures State() == old(State()).(lastRequestId := rid)
    {
      lastRequestId := Wrap32(lastRequestId + 1);
      if lastRequestId == 0 {
        lastRequestId := Wrap32(lastRequestId + 1);
      }
      rid := lastRequestId;
    }

    /** Tells every observer, in subscription order. */
    method NotifyAll(n: Notice)
      modifies this
      ensures State() == old(State()).(events := old(events) + Broadcast(old(observers), n))
    {
      var all := observers;
      for i := 0 to |all|
        invariant State() == old(State()).(events := old(events) + Broadcast(all[..i], n))
      {
        BroadcastStep(all, i, n);
        events := events + [Event(all[i], n)];
      }
      assert all[..|all|] == all;
    }

    /** `closeError`: while a socket is held, `onDisconnected` (cleanup, then every observer). */
    method CloseError(e: Error)
      modifies this
      ensures State() == Disconnect(old(State()), e)
    {
      if socket.Some? {
        socket := None;
        NotifyAll(Disconnected(e));
      }
    }

    /** `close`: `closeError("Connection closed")`. */
    method Close()
      modifies this
      ensures State() == Disconnect(old(State()), RuntimeError(CloseMsg))
    {
      CloseError(RuntimeError(CloseMsg));
    }

    /** `sendBuffer`: a loop handing bytes to the socket until none is left or the socket refuses. */
    method SendBuffer(bytes: seq<byte>) returns (r: Result<()>)
      requires socket.Some?
      modifies this
      ensures (State(), r) == SendSpec(old(State()), bytes)
    {
      var sock0 := socket.value;
      var accepts: nat := sock0.accepts;
      var done := 0;
      var failed := false;
      while done < |bytes| && !failed
        invariant done <= |bytes| && done + accepts == sock0.accepts
        invariant failed ==> accepts == 0 && done < |bytes|
        decreases |bytes| - done, !failed
      {
        var lastSent := if accepts < |bytes| - done then accepts else |bytes| - done;
        if lastSent <= 0 {
          failed := true;
        } else {
          done := done + lastSent;
          accepts := accepts - lastSent;
        }
      }
      socket := Some(sock0.(accepts := accepts));
      sent := sent + bytes[..done];
      if failed {
        var e := RuntimeError(SendFailedMsg);
        CloseError(e);
        return Fail(e);
      }
      assert bytes[..done] == bytes;
      return Ok(());
    }

    /** `receiveFromSocket(n)`: a loop taking bytes from the socket until n have arrived or the peer stops. */
    method ReceiveFromSocket(n: nat) returns (r: Result<seq<byte>>)
      requires socket.Some?
      modifies this
      ensures (State(), r) == ReceiveSpec(old(State()), n)
    {
      ghost var s0 := State();
      var sock0 := socket.value;
      var got: seq<byte> := [];
      while |got| < n
        invariant |got| <= n && |got| <= |sock0.inbox|
        invariant got == sock0.inbox[..|got|]
        invariant State() == s0.(socket := Some(sock0.(inbox := sock0.inbox[|got|..])))
      {
        var inbox := socket.value.inbox;
        var lastRead := if |inbox| < n - |got| then |inbox| else n - |got|;
        if lastRead <= 0 {
          var e := RuntimeError(ReceiveFailedMsg);
          CloseError(e);
          return Fail(e);
        }
        assert sock0.inbox[..|got| + lastRead] == got + inbox[..lastRead];
        assert inbox[lastRead..] == sock0.inbox[|got| + lastRead..];
        got := got + inbox[..lastRead];
        socket := Some(socket.value.(inbox := inbox[lastRead..]));
      }
      return Ok(got);
    }

    /** The body of `writeSync` after the liveness check. */
    method PutFrameMethod(ops: seq<WriteOp>, p: Payload) returns (r: Result<()>)
      requires IsAlive()
      modifies this
      ensures (State(), r) == PutFrame(old(State()), ops, p)
    {
      var body := Run(Writer([], MAX_PACKET_SIZE, sendGood), ops);
      sendGood := body.state.good;
      if body.Threw? {
        return Fail(body.error);
      }
      r := SendBodyMethod(p, body.state.written);
    }

    method SendBodyMethod(p: Payload, body: seq<byte>) returns (r: Result<()>)
      requires IsAlive()
      modifies this
      ensures (State(), r) == SendBody(old(State()), p, body)
    {
      var contentLength := |body|;
      if contentLength > MAX_PACKET_SIZE {
        return Fail(RuntimeError(OversizeMsg));
      }
      var header := Run(Writer([], CONTENT_LEN_SIZE + MAX_PACKET_SIZE, sendGood), UIntOps(contentLength, CONTENT_LEN_SIZE));
      sendGood := header.state.good;
      if header.Threw? {
        return Fail(header.error);
      }
      r := SendBuffer(header.state.written + body);
      if r.Ok? {
        NotifyAll(Sent(p, contentLength));
      }
    }

    /** `writeSync` as written: the size check runs after the payload was written into a bounded buffer. */
    method WriteSyncAsWritten(p: Payload) returns (r: Result<()>)
      modifies this
      ensures (State(), r) == WriteSyncAsWrittenSpec(old(State()), p)
    {
      var alive := AssertConnected();
      if alive.Fail? {
        return Fail(alive.error);
      }
      r := PutFrameMethod(Encode(p), p);
    }

    /** `writeSync` with the size check made before the payload touches the stream. */
    method WriteSync(p: Payload) returns (r: Result<()>)
      modifies this
      ensures (State(), r) == WriteSyncSpec(old(State()), p)
    {
      var alive := AssertConnected();
      if alive.Fail? {
        return Fail(alive.error);
      }
      if |Flatten(Encode(p))| > MAX_PACKET_SIZE {
        return Fail(RuntimeError(OversizeMsg));
      }
      r := PutFrameMethod(Encode(p), p);
    }

    /** `writeRequestSync`: returns the packet as stamped (the caller's object after the call) and the id. */
    method WriteRequestSync(p: Payload) returns (q: Payload, r: Result<Int32>)
      requires IsTrackable(p)
      modifies this
      ensures (State(), q, r) == WriteRequestSpec(old(State()), p)
    {
      var rid := NewRequestId();
      q := WithRequestId(p, rid);
      var w := WriteSync(q);
      r := if w.Ok? then Ok(rid) else Fail(w.error);
    }

    /** `writeReplySync(payload, requestId)`. */
    method WriteReplySync(p: Payload, requestId: Int32) returns (q: Payload, r: Result<()>)
      requires IsTrackable(p)
      modifies this
      ensures (State(), q, r) == WriteReplySpec(old(State()), p, requestId)
    {
      q := p;
      if requestId != 0 {
        q := WithRequestId(p, requestId);
      }
      r := WriteSync(q);
    }

    /** `writeReplySync(payload, request)`: answers under the request's own id. */
    method WriteReplyTo(p: Payload, request: Payload) returns (q: Payload, r: Result<()>)
      requires IsTrackable(p) && IsTrackable(request)
      modifies this
      ensures (State(), q, r) == WriteReplySpec(old(State()), p, RequestId(request))
    {
      q, r := WriteReplySync(p, RequestId(request));
    }

    /** `readSyncInternal` as written. */
    method ReadSyncInternalAsWritten() returns (r: Result<Option<Payload>>)
      modifies this
      ensures (State(), r) == ReadFrameWith(old(State()), false)
    {
      r := ReadFrame(false);
    }

    /** `readSyncInternal` with the stream cleared per frame and truncated payloads dropped. */
    method ReadSyncInternal() returns (r: Result<Option<Payload>>)
      modifies this
      ensures (State(), r) == ReadFrameWith(old(State()), true)
    {
      r := ReadFrame(true);
    }

    method ReadFrame(strict: bool) returns (r: Result<Option<Payload>>)
      modifies this
      ensures (State(), r) == ReadFrameWith(old(State()), strict)
    {
      var alive := AssertConnected();
      if alive.Fail? {
        return Fail(alive.error);
      }
      if strict {
        receiveGood := true;
      }
      var h := ReceiveFromSocket(CONTENT_LEN_SIZE);
      if h.Fail? {
        return Fail(h.error);
      }
      var len := ReadUInt(Reader(h.value, receiveGood), CONTENT_LEN_SIZE);
      if len.Threw? {
        return Fail(len.error);
      }
      if len.value > MAX_PACKET_SIZE {
        var e := RuntimeError(OversizeMsg);
        CloseError(e);
        return Fail(e);
      }
      r := ReadBodyMethod(len.value, strict);
    }

    /** The body read of `readSyncInternal`: the announced bytes, `new_instance` and `deserialize`. */
    method ReadBodyMethod(length: nat, strict: bool) returns (r: Result<Option<Payload>>)
      requires socket.Some?
      modifies this
      ensures (State(), r) == ReadBody(old(State()), length, strict)
    {
      var b := ReceiveFromSocket(length);
      if b.Fail? {
        return Fail(b.error);
      }
      var o := DecodePayload(Reader(b.value, receiveGood));
      r := DeliverMethod(o, length, strict);
    }

    /** The decode's outcome: the payload announced to every observer, or dropped, or the exception passed on. */
    method DeliverMethod(o: Decoded<Payload>, length: nat, strict: bool) returns (r: Result<Option<Payload>>)
      modifies this
      ensures (State(), r) == Deliver(old(State()), o, length, strict)
    {
      receiveGood := o.state.good;
      match o
      case Done(p, st) =>
        if strict && !st.good {
          return Ok(None);
        }
        NotifyAll(Received(p, length));
        return Ok(Some(p));
      case Threw(e, _) =>
        if e.RuntimeError? {
          return Ok(None);
        }
        return Fail(e);
    }

    /** `readSync`: `logic_error` while reading in the background, else one frame. */
    method ReadSync() returns (r: Result<Option<Payload>>)
      modifies this
      ensures (State(), r) == ReadSyncSpec(old(State()))
    {
      if readingAsync {
        return Fail(LogicError(AsyncMsg));
      }
      r := ReadSyncInternal();
    }

    /** `onConnected`: writes a `Ping`, then tells each observer while the connection is alive. */
    method OnConnected() returns (r: Result<()>)
      modifies this
      ensures (State(), r) == OnConnectedSpec(old(State()))
    {
      r := WriteSync(Ping);
      if r.Ok? {
        AnnounceConnected();
      }
    }

    /** The notification loop of `onConnected`: each observer, in order, while `isAlive` holds. */
    method AnnounceConnected()
      modifies this
      ensures State() == Announce(old(State()))
    {
      ghost var before := State();
      var all := observers;
      for i := 0 to |all|
        invariant State() == before.(events := before.events + (if Alive(before) then Broadcast(all[..i], Connected) else []))
      {
        if IsAlive() {
          BroadcastStep(all, i, Connected);
          events := events + [Event(all[i], Connected)];
        }
      }
      assert all[..|all|] == all;
    }

    /** Closes a different live socket, then holds the new one. */
    method AttachSocket(sock: Option<Socket>)
      modifies this
      ensures State() == Attach(old(State()), sock)
    {
      if HandleOf(sock) != HandleOf(socket) && IsAlive() {
        Close();
      }
      socket := sock;
    }

    /** `connect(socket)`. */
    method Connect(sock: Option<Socket>, counter: IdCounter) returns (r: Result<int>)
      modifies this, counter
      ensures (State(), counter.lastId, r) == ConnectSpec(old(State()), sock, old(counter.lastId))
    {
      AttachSocket(sock);
      if IsAlive() {
        id := counter.lastId;
        counter.lastId := counter.lastId + 1;
        var w := OnConnected();
        if w.Fail? {
          return Fail(w.error);
        }
      }
      return Ok(id);
    }
  }
}
