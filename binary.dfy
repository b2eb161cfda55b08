/**
 * The stream codec of `Serialization::Binary`: primitives, length-prefixed
 * strings and wide strings, and counted sets, over `std::istream` /
 * `std::ostream`.
 *
 * A stream is modelled by its state: for input, the bytes not yet extracted
 * and the `good()` flag; for output, the bytes written, the room left in the
 * underlying buffer and the `good()` flag.  `read_primitive` and
 * `write_primitive` refuse a stream that is no longer good; the raw
 * `istream::read` / `ostream::write` underneath never throw, but a short read
 * or a write past the buffer's end fails the stream for every later call.
 */
module Binary {
  import opened Wire
  import opened Errors
  import opened Ordering

  /** The result of a stream operation: a value or an exception, and the stream state either way. */
  datatype Outcome<+T, +S> = Done(value: T, state: S) | Threw(error: Error, state: S)
  {
    predicate IsFailure() { Threw? }

    function PropagateFailure<U>(): Outcome<U, S>
      requires Threw?
    {
      Threw(error, state)
    }

    function Extract(): (T, S)
      requires Done?
    {
      (value, state)
    }
  }

  /** A method result mirrors an outcome when it carries the same value or exception and the stream is in the outcome's state. */
  ghost predicate Mirrors<T, S>(r: Result<T>, o: Outcome<T, S>, now: S)
  {
    match o
    case Done(v, s) => r == Ok(v) && now == s
    case Threw(e, s) => r == Fail(e) && now == s
  }

  /** A write method's result settles like the serializer's run: success or the same exception, and the stream in the run's final state. */
  ghost predicate Settles<T>(r: Result<T>, o: Outcome<(), Writer>, now: Writer)
  {
    (r.Ok? <==> o.Done?) && (o.Threw? ==> r == Fail(o.error)) && now == o.state
  }

  const BadStream: string := "invalid destination stream"
  const BadLengthMsg: string := "bad array new length"

  // ---------------------------------------------------------------- input

  /** An input stream: the bytes not yet extracted, and whether `good()` holds. */
  datatype Reader = Reader(rest: seq<byte>, good: bool)

  type Decoded<T> = Outcome<T, Reader>

  /**
   * `istream::read` of n bytes.  A stream that is not good reads nothing.  A
   * short read takes what is left and fails the stream; the bytes it could not
   * supply are indeterminate in the source and read as zero here.
   */
  function RawRead(r: Reader, n: nat): (res: (seq<byte>, Reader))
    ensures |res.0| == n
    ensures res.1.good <==> r.good && n <= |r.rest|
    ensures res.1.good ==> r.rest == res.0 + res.1.rest
    ensures !res.1.good ==> res.1.rest == [] || res.1 == r
  {
    if !r.good then (Zeros(n), r)
    else if n <= |r.rest| then (r.rest[..n], Reader(r.rest[n..], true))
    else (r.rest + Zeros(n - |r.rest|), Reader([], false))
  }

  /** `read_primitive`: throws on a stream that is no longer good, otherwise reads sizeof(T) bytes. */
  function ReadBytes(r: Reader, n: nat): (o: Decoded<seq<byte>>)
    ensures o.Threw? <==> !r.good
    ensures o.Threw? ==> o == Threw(RuntimeError(BadStream), r)
    ensures o.Done? ==> |o.value| == n
    ensures o.Done? && n <= |r.rest| ==> o == Done(r.rest[..n], Reader(r.rest[n..], true))
  {
    if !r.good then Threw(RuntimeError(BadStream), r)
    else
      var (bs, r') := RawRead(r, n);
      Done(bs, r')
  }

  /** An unsigned integer of n bytes. */
  function ReadUInt(r: Reader, n: nat): (o: Decoded<nat>)
    ensures o.Done? ==> o.value < Pow256(n)
    ensures !r.good ==> o == Threw(RuntimeError(BadStream), r)
  {
    var b :- ReadBytes(r, n);
    Done(FromLE(b.0), b.1)
  }

  function ReadU8(r: Reader): (o: Decoded<U8>)
    ensures !r.good ==> o == Threw(RuntimeError(BadStream), r)
  {
    var x :- ReadUInt(r, 1);
    Pow256Values();
    Done(x.0, x.1)
  }

  function ReadU16(r: Reader): (o: Decoded<U16>)
    ensures !r.good ==> o == Threw(RuntimeError(BadStream), r)
  {
    var x :- ReadUInt(r, 2);
    Pow256Values();
    Done(x.0, x.1)
  }

  function ReadU32(r: Reader): (o: Decoded<U32>)
    ensures !r.good ==> o == Threw(RuntimeError(BadStream), r)
  {
    var x :- ReadUInt(r, 4);
    Pow256Values();
    Done(x.0, x.1)
  }

  function ReadU64(r: Reader): (o: Decoded<U64>)
    ensures !r.good ==> o == Threw(RuntimeError(BadStream), r)
  {
    var x :- ReadUInt(r, 8);
    Pow256Values();
    Done(x.0, x.1)
  }

  /** A C++ `int`: four bytes of two's complement. */
  function ReadI32(r: Reader): (o: Decoded<Int32>)
    ensures !r.good ==> o == Threw(RuntimeError(BadStream), r)
  {
    var x :- ReadU32(r);
    Done(I32OfBits(x.0), x.1)
  }

  /** A `bool` is one byte; any non-zero byte reads as true. */
  function ReadBool(r: Reader): (o: Decoded<bool>)
    ensures !r.good ==> o == Threw(RuntimeError(BadStream), r)
  {
    var x :- ReadU8(r);
    Done(x.0 != 0, x.1)
  }

  /** `read_string`: a `size_t` length, then that many bytes read without a further check of the stream. */
  function ParseString(r: Reader): (o: Decoded<seq<byte>>)
    ensures o.Done? ==> |o.value| < Pow256(SIZE_T)
    ensures o.Threw? <==> !r.good
    ensures o.Threw? ==> o == Threw(RuntimeError(BadStream), r)
  {
    var n :- ReadUInt(r, SIZE_T);
    var (bs, r') := RawRead(n.1, n.0);
    Done(bs, r')
  }

  /** The w-byte little-endian code units of a wide string, in order. */
  function WideBytes(s: seq<nat>, w: nat): (bs: seq<byte>)
    ensures |bs| == |s| * w
  {
    if s == [] then [] else LE(s[0], w) + WideBytes(s[1..], w)
  }

  /** The wide characters packed in n groups of w bytes. */
  function WideChars(bs: seq<byte>, w: nat, n: nat): (s: seq<nat>)
    requires |bs| == n * w
    ensures |s| == n
    ensures forall i :: 0 <= i < n ==> s[i] < Pow256(w)
  {
    if n == 0 then []
    else
      assert |bs[w..]| == (n - 1) * w;
      [FromLE(bs[..w])] + WideChars(bs[w..], w, n - 1)
  }

  /**
   * `read_wstring`: a `size_t` character count, then count * sizeof(wchar_t)
   * bytes.  A count whose byte size does not fit a `size_t` makes the
   * `new wchar_t[len]` throw `std::bad_array_new_length` before anything else
   * is read.
   */
  function ParseWString(r: Reader, w: nat): (o: Decoded<seq<nat>>)
    ensures o.Done? ==> |o.value| < Pow256(SIZE_T)
    ensures o.Done? ==> forall i :: 0 <= i < |o.value| ==> o.value[i] < Pow256(w)
    ensures o.Threw? && o.error.BadAlloc? <==> r.good && FromLE(RawRead(r, SIZE_T).0) * w >= Pow256(SIZE_T)
    ensures o.Threw? && !o.error.BadAlloc? <==> !r.good
  {
    var n :- ReadUInt(r, SIZE_T);
    if n.0 * w >= Pow256(SIZE_T) then Threw(BadAlloc(BadLengthMsg), n.1)
    else
      var (bs, r') := RawRead(n.1, n.0 * w);
      Done(WideChars(bs, w, n.0), r')
  }

  /** The counted loop of `read_set`: `count` elements decoded by `dec`, each inserted into the set. */
  function ParseMany<T>(r: Reader, count: nat, dec: Reader -> Decoded<T>, acc: set<T>): (o: Decoded<set<T>>)
    ensures o.Done? ==> acc <= o.value
    decreases count
  {
    if count == 0 then Done(acc, r)
    else
      var x :- dec(r);
      ParseMany(x.1, count - 1, dec, acc + {x.0})
  }

  /** `read_set`: the set is cleared, then a `size_t` count, then the elements. */
  function ParseSet<T>(r: Reader, dec: Reader -> Decoded<T>): (o: Decoded<set<T>>)
    ensures !r.good ==> o == Threw(RuntimeError(BadStream), r)
  {
    var n :- ReadUInt(r, SIZE_T);
    ParseMany(n.1, n.0, dec, {})
  }

  /** `read_set_primitive` for the 64-bit identifiers it is used with. */
  function ParseSetPrimitive(r: Reader): (o: Decoded<set<U64>>)
    ensures !r.good ==> o == Threw(RuntimeError(BadStream), r)
  {
    ParseSet(r, ReadU64)
  }

  // --------------------------------------------------------------- output

  /**
   * One write of a serializer: `write_primitive` (Checked: throws when the
   * stream is no longer good) or the bare `ostream::write` that
   * `write_string` / `write_wstring` use for the characters (Raw).
   */
  datatype WriteOp = Checked(bytes: seq<byte>) | Raw(bytes: seq<byte>)

  /** The bytes a sequence of writes puts on a stream that never fails. */
  function Flatten(ops: seq<WriteOp>): (bs: seq<byte>)
  {
    if ops == [] then [] else ops[0].bytes + Flatten(ops[1..])
  }

  lemma {:induction false} FlattenAppend(a: seq<WriteOp>, b: seq<WriteOp>)
    ensures Flatten(a + b) == Flatten(a) + Flatten(b)
  {
    if a == [] {
      assert a + b == b;
    } else {
      assert (a + b)[0] == a[0];
      assert (a + b)[1..] == a[1..] + b;
      FlattenAppend(a[1..], b);
    }
  }

  /** An output stream: bytes written so far, room left before the buffer's end, and `good()`. */
  datatype Writer = Writer(written: seq<byte>, room: nat, good: bool)

  /** `ostream::write`: nothing on a failed stream; past the end of the room, the prefix that fits and a failed stream. */
  function Put(w: Writer, bs: seq<byte>): (w': Writer)
    ensures w'.good <==> w.good && |bs| <= w.room
    ensures w'.good ==> w' == Writer(w.written + bs, w.room - |bs|, true)
  {
    if !w.good then w
    else if |bs| <= w.room then Writer(w.written + bs, w.room - |bs|, true)
    else Writer(w.written + bs[..w.room], 0, false)
  }

  /** A serializer run against a stream: each Checked write first refuses a failed stream. */
  function Run(w: Writer, ops: seq<WriteOp>): (o: Outcome<(), Writer>)
    decreases |ops|
  {
    if ops == [] then Done((), w)
    else if ops[0].Checked? && !w.good then Threw(RuntimeError(BadStream), w)
    else Run(Put(w, ops[0].bytes), ops[1..])
  }

  lemma {:induction false} RunAppend(w: Writer, a: seq<WriteOp>, b: seq<WriteOp>)
    ensures Run(w, a + b) == (match Run(w, a) case Done(_, w') => Run(w', b) case Threw(e, w') => Threw(e, w'))
    decreases |a|
  {
    if a == [] {
      assert a + b == b;
    } else {
      assert (a + b)[0] == a[0];
      assert (a + b)[1..] == a[1..] + b;
      if !(a[0].Checked? && !w.good) {
        RunAppend(Put(w, a[0].bytes), a[1..], b);
      }
    }
  }

  /** On a good stream with room for everything, a serializer writes exactly its flattened bytes. */
  lemma {:induction false} RunFits(w: Writer, ops: seq<WriteOp>)
    requires w.good && |Flatten(ops)| <= w.room
    ensures Run(w, ops) == Done((), Writer(w.written + Flatten(ops), w.room - |Flatten(ops)|, true))
    decreases |ops|
  {
    if ops != [] {
      var w' := Put(w, ops[0].bytes);
      assert Flatten(ops) == ops[0].bytes + Flatten(ops[1..]);
      assert w' == Writer(w.written + ops[0].bytes, w.room - |ops[0].bytes|, true);
      RunFits(w', ops[1..]);
      assert Run(w, ops) == Run(w', ops[1..]);
      assert w.written + ops[0].bytes + Flatten(ops[1..]) == w.written + Flatten(ops);
      assert w'.room - |Flatten(ops[1..])| == w.room - |Flatten(ops)|;
      assert Run(w, ops) == Done((), Writer(w.written + Flatten(ops), w.room - |Flatten(ops)|, true));
    } else {
      assert Run(w, ops) == Done((), w);
      assert w == Writer(w.written + Flatten(ops), w.room - |Flatten(ops)|, true);
    }
  }

  /** Writing more than the room holds never ends on a good stream: it throws or leaves the stream failed. */
  lemma {:induction false} RunOverflows(w: Writer, ops: seq<WriteOp>)
    requires |Flatten(ops)| > w.room || !w.good
    ensures Run(w, ops).Threw? || !Run(w, ops).state.good
    decreases |ops|
  {
    if ops != [] && !(ops[0].Checked? && !w.good) {
      var w' := Put(w, ops[0].bytes);
      if w'.good {
        assert |Flatten(ops[1..])| > w'.room;
      }
      RunOverflows(w', ops[1..]);
    }
  }

  /** `write_primitive` of a value whose image is `bs`. */
  function Prim(bs: seq<byte>): seq<WriteOp> { [Checked(bs)] }

  function UIntOps(x: nat, n: nat): seq<WriteOp> { [Checked(LE(x, n))] }

  /** `write_string`: the length, then the bytes when there are any. */
  function StringOps(s: seq<byte>): (ops: seq<WriteOp>)
    ensures Flatten(ops) == LE(|s|, SIZE_T) + s
  {
    var ops := [Checked(LE(|s|, SIZE_T))] + (if |s| > 0 then [Raw(s)] else []);
    assert Flatten(ops) == LE(|s|, SIZE_T) + s by {
      FlattenAppend([Checked(LE(|s|, SIZE_T))], if |s| > 0 then [Raw(s)] else []);
      assert Flatten([Checked(LE(|s|, SIZE_T))]) == LE(|s|, SIZE_T);
      assert Flatten([Raw(s)]) == s;
    }
    ops
  }

  /** `write_wstring`: the character count, then count * w bytes when there are any. */
  function WStringOps(s: seq<nat>, w: nat): (ops: seq<WriteOp>)
    ensures Flatten(ops) == LE(|s|, SIZE_T) + WideBytes(s, w)
  {
    var ops := [Checked(LE(|s|, SIZE_T))] + (if |s| > 0 then [Raw(WideBytes(s, w))] else []);
    assert Flatten(ops) == LE(|s|, SIZE_T) + WideBytes(s, w) by {
      FlattenAppend([Checked(LE(|s|, SIZE_T))], if |s| > 0 then [Raw(WideBytes(s, w))] else []);
      assert Flatten([Checked(LE(|s|, SIZE_T))]) == LE(|s|, SIZE_T);
      assert Flatten([Raw(WideBytes(s, w))]) == WideBytes(s, w);
    }
    ops
  }

  /** The writes of each element in turn. */
  function ConcatOps<T>(xs: seq<T>, enc: T -> seq<WriteOp>): seq<WriteOp>
  {
    if xs == [] then [] else enc(xs[0]) + ConcatOps(xs[1..], enc)
  }

  lemma {:induction false} ConcatOpsSnoc<T>(xs: seq<T>, x: T, enc: T -> seq<WriteOp>)
    ensures ConcatOps(xs + [x], enc) == ConcatOps(xs, enc) + enc(x)
  {
    if xs == [] {
      assert [x][1..] == [];
    } else {
      assert (xs + [x])[1..] == xs[1..] + [x];
      ConcatOpsSnoc(xs[1..], x, enc);
    }
  }

  function U64Less(a: U64, b: U64): bool { a < b }

  lemma U64LessTotal()
    ensures StrictTotal(U64Less)
  {
  }

  function U64Ops(x: U64): seq<WriteOp> { UIntOps(x, 8) }

  /** `write_set_primitive`: the count, then each element in ascending order. */
  function SetPrimitiveOps(s: set<U64>): seq<WriteOp>
  {
    U64LessTotal();
    [Checked(LE(|s|, SIZE_T))] + ConcatOps(Sorted(s, U64Less), U64Ops)
  }

  /** `write_set_typed`: the count, then each element's own serializer, in the set's order. */
  function SetTypedOps<T(!new)>(s: set<T>, lt: (T, T) -> bool, enc: T -> seq<WriteOp>): seq<WriteOp>
    requires StrictTotal(lt)
  {
    [Checked(LE(|s|, SIZE_T))] + ConcatOps(Sorted(s, lt), enc)
  }

  // ------------------------------------------------------------ round trips

  /** `dec` reads back exactly what `enc` wrote for x, whatever follows it. */
  ghost predicate Inverts<T>(enc: T -> seq<WriteOp>, dec: Reader -> Decoded<T>, x: T)
  {
    forall tail :: dec(Reader(Flatten(enc(x)) + tail, true)) == Done(x, Reader(tail, true))
  }

  lemma ReadUIntRoundTrip(x: nat, n: nat, tail: seq<byte>)
    requires x < Pow256(n)
    ensures ReadUInt(Reader(LE(x, n) + tail, true), n) == Done(x, Reader(tail, true))
  {
    var r := Reader(LE(x, n) + tail, true);
    assert r.rest[..n] == LE(x, n) && r.rest[n..] == tail;
    LERoundTrip(x, n);
  }

  lemma ReadU64RoundTrip(x: U64, tail: seq<byte>)
    ensures ReadU64(Reader(Flatten(U64Ops(x)) + tail, true)) == Done(x, Reader(tail, true))
  {
    Pow256Values();
    assert Flatten(U64Ops(x)) == LE(x, 8);
    ReadUIntRoundTrip(x, 8, tail);
  }

  /** A string shorter than 2^64 bytes reads back unchanged and leaves the stream good. */
  lemma StringRoundTrip(s: seq<byte>, tail: seq<byte>)
    requires |s| < Pow256(SIZE_T)
    ensures ParseString(Reader(Flatten(StringOps(s)) + tail, true)) == Done(s, Reader(tail, true))
  {
    ReadUIntRoundTrip(|s|, SIZE_T, s + tail);
    assert LE(|s|, SIZE_T) + s + tail == LE(|s|, SIZE_T) + (s + tail);
    assert (s + tail)[..|s|] == s && (s + tail)[|s|..] == tail;
  }

  lemma {:induction false} WideCharsOfBytes(s: seq<nat>, w: nat)
    requires forall i :: 0 <= i < |s| ==> s[i] < Pow256(w)
    ensures WideChars(WideBytes(s, w), w, |s|) == s
  {
    if s != [] {
      var bs := WideBytes(s, w);
      assert bs[..w] == LE(s[0], w) && bs[w..] == WideBytes(s[1..], w);
      LERoundTrip(s[0], w);
      WideCharsOfBytes(s[1..], w);
    }
  }

  /** A wide string whose characters fit in w bytes reads back unchanged. */
  lemma WStringRoundTrip(s: seq<nat>, w: nat, tail: seq<byte>)
    requires |s| < Pow256(SIZE_T) && |s| * w < Pow256(SIZE_T)
    requires forall i :: 0 <= i < |s| ==> s[i] < Pow256(w)
    ensures ParseWString(Reader(Flatten(WStringOps(s, w)) + tail, true), w) == Done(s, Reader(tail, true))
  {
    var bs := WideBytes(s, w);
    ReadUIntRoundTrip(|s|, SIZE_T, bs + tail);
    assert LE(|s|, SIZE_T) + bs + tail == LE(|s|, SIZE_T) + (bs + tail);
    assert (bs + tail)[..|s| * w] == bs && (bs + tail)[|s| * w..] == tail;
    WideCharsOfBytes(s, w);
  }

  /** Decoding the concatenated encodings of xs inserts every element of xs, and nothing else. */
  lemma {:induction false} ParseManyRoundTrip<T>(xs: seq<T>, enc: T -> seq<WriteOp>, dec: Reader -> Decoded<T>,
                                               acc: set<T>, tail: seq<byte>)
    requires forall x :: x in xs ==> Inverts(enc, dec, x)
    ensures ParseMany(Reader(Flatten(ConcatOps(xs, enc)) + tail, true), |xs|, dec, acc)
         == Done(acc + (set x | x in xs), Reader(tail, true))
  {
    if xs != [] {
      var rest := Flatten(ConcatOps(xs[1..], enc)) + tail;
      FlattenAppend(enc(xs[0]), ConcatOps(xs[1..], enc));
      assert Flatten(ConcatOps(xs, enc)) + tail == Flatten(enc(xs[0])) + rest;
      assert Inverts(enc, dec, xs[0]);
      assert dec(Reader(Flatten(enc(xs[0])) + rest, true)) == Done(xs[0], Reader(rest, true));
      ParseManyRoundTrip(xs[1..], enc, dec, acc + {xs[0]}, tail);
      assert |xs[1..]| == |xs| - 1;
      assert ParseMany(Reader(Flatten(ConcatOps(xs, enc)) + tail, true), |xs|, dec, acc)
          == ParseMany(Reader(rest, true), |xs| - 1, dec, acc + {xs[0]});
      assert acc + {xs[0]} + (set x | x in xs[1..]) == acc + (set x | x in xs);
    } else {
      assert (set x | x in xs) == {};
      assert Flatten(ConcatOps(xs, enc)) + tail == tail;
      assert ParseMany(Reader(tail, true), 0, dec, acc) == Done(acc, Reader(tail, true));
      assert acc + (set x | x in xs) == acc;
    }
  }

  /** A count followed by the encodings of xs, as `write_set` lays them out. */
  lemma {:induction false} CountedBytes<T>(n: nat, xs: seq<T>, enc: T -> seq<WriteOp>, tail: seq<byte>)
    ensures Flatten([Checked(LE(n, SIZE_T))] + ConcatOps(xs, enc)) + tail
         == LE(n, SIZE_T) + (Flatten(ConcatOps(xs, enc)) + tail)
  {
    FlattenAppend([Checked(LE(n, SIZE_T))], ConcatOps(xs, enc));
    assert Flatten([Checked(LE(n, SIZE_T))]) == LE(n, SIZE_T);
  }

  /** The count and the encodings of an enumeration xs of s read back as s. */
  lemma {:induction false} CountedRoundTrip<T>(xs: seq<T>, s: set<T>, enc: T -> seq<WriteOp>,
                                               dec: Reader -> Decoded<T>, tail: seq<byte>)
    requires |xs| == |s| < Pow256(SIZE_T)
    requires forall x :: x in s <==> x in xs
    requires forall x :: x in s ==> Inverts(enc, dec, x)
    ensures ParseSet(Reader(Flatten([Checked(LE(|s|, SIZE_T))] + ConcatOps(xs, enc)) + tail, true), dec)
         == Done(s, Reader(tail, true))
  {
    var rest := Flatten(ConcatOps(xs, enc)) + tail;
    CountedBytes(|s|, xs, enc, tail);
    ReadUIntRoundTrip(|s|, SIZE_T, rest);
    ParseManyRoundTrip(xs, enc, dec, {}, tail);
    assert (set x | x in xs) == s;
    assert ParseSet(Reader(LE(|s|, SIZE_T) + rest, true), dec) == ParseMany(Reader(rest, true), |xs|, dec, {});
  }

  /** A set written element by element in ascending order reads back as the same set. */
  lemma SetTypedRoundTrip<T(!new)>(s: set<T>, lt: (T, T) -> bool, enc: T -> seq<WriteOp>,
                                   dec: Reader -> Decoded<T>, tail: seq<byte>)
    requires StrictTotal(lt)
    requires |s| < Pow256(SIZE_T)
    requires forall x :: x in s ==> Inverts(enc, dec, x)
    ensures ParseSet(Reader(Flatten(SetTypedOps(s, lt, enc)) + tail, true), dec) == Done(s, Reader(tail, true))
  {
    CountedRoundTrip(Sorted(s, lt), s, enc, dec, tail);
  }

  lemma SetPrimitiveRoundTrip(s: set<U64>, tail: seq<byte>)
    requires |s| < Pow256(SIZE_T)
    ensures ParseSetPrimitive(Reader(Flatten(SetPrimitiveOps(s)) + tail, true)) == Done(s, Reader(tail, true))
  {
    U64LessTotal();
    forall x | x in s ensures Inverts(U64Ops, ReadU64, x) {
      forall tail ensures ReadU64(Reader(Flatten(U64Ops(x)) + tail, true)) == Done(x, Reader(tail, true)) {
        ReadU64RoundTrip(x, tail);
      }
    }
    SetTypedRoundTrip(s, U64Less, U64Ops, ReadU64, tail);
  }

  /** What `write_string` returns: the bytes it put on the stream. */
  lemma StringCountIsBytesWritten(s: seq<byte>)
    ensures |Flatten(StringOps(s))| == |s| + SIZE_T
  {
  }

  // ------------------------------------------------- payload field codecs

  function U8Ops(x: U8): seq<WriteOp> { UIntOps(x, 1) }

  function U16Ops(x: U16): seq<WriteOp> { UIntOps(x, 2) }

  function U32Ops(x: U32): seq<WriteOp> { UIntOps(x, 4) }

  function I32Ops(i: Int32): seq<WriteOp> { UIntOps(I32Bits(i), 4) }

  /** A `bool` is written as the byte 1 or 0. */
  function BoolOps(b: bool): seq<WriteOp> { UIntOps(if b then 1 else 0, 1) }

  /** A `wchar_t` code unit (16 bits wide). */
  type WChar = U16

  /** A `std::wstring`: its byte size, and so its length, fits a `size_t`. */
  type WString = s: seq<WChar> | |s| < 0x8000_0000_0000_0000

  /** A `std::string`: its length is a `size_t`. */
  type ByteString = s: seq<byte> | |s| < 0x1_0000_0000_0000_0000

  function ReadStr(r: Reader): (o: Decoded<ByteString>)
    ensures !r.good ==> o == Threw(RuntimeError(BadStream), r)
  {
    var x :- ParseString(r);
    Pow256Values();
    Done(x.0, x.1)
  }

  function WStrOps(s: WString): seq<WriteOp> { WStringOps(s, WCHAR_SIZE) }

  function ReadWStr(r: Reader): (o: Decoded<WString>)
    ensures !r.good ==> o == Threw(RuntimeError(BadStream), r)
  {
    var x :- ParseWString(r, WCHAR_SIZE);
    Pow256Values();
    Done(x.0, x.1)
  }

  /** The bytes of two serializers run one after the other, followed by whatever comes next. */
  lemma FlattenThen(a: seq<WriteOp>, b: seq<WriteOp>, tail: seq<byte>)
    ensures Flatten(a + b) + tail == Flatten(a) + (Flatten(b) + tail)
  {
    FlattenAppend(a, b);
  }

  lemma UIntInverts(x: nat, n: nat, tail: seq<byte>)
    requires x < Pow256(n)
    ensures ReadUInt(Reader(Flatten(UIntOps(x, n)) + tail, true), n) == Done(x, Reader(tail, true))
  {
    assert Flatten(UIntOps(x, n)) == LE(x, n);
    ReadUIntRoundTrip(x, n, tail);
  }

  lemma U8RoundTrip(x: U8, tail: seq<byte>)
    ensures ReadU8(Reader(Flatten(U8Ops(x)) + tail, true)) == Done(x, Reader(tail, true))
  {
    Pow256Values();
    UIntInverts(x, 1, tail);
  }

  lemma U16RoundTrip(x: U16, tail: seq<byte>)
    ensures ReadU16(Reader(Flatten(U16Ops(x)) + tail, true)) == Done(x, Reader(tail, true))
  {
    Pow256Values();
    UIntInverts(x, 2, tail);
  }

  lemma U32RoundTrip(x: U32, tail: seq<byte>)
    ensures ReadU32(Reader(Flatten(U32Ops(x)) + tail, true)) == Done(x, Reader(tail, true))
  {
    Pow256Values();
    UIntInverts(x, 4, tail);
  }

  lemma I32RoundTrip(i: Int32, tail: seq<byte>)
    ensures ReadI32(Reader(Flatten(I32Ops(i)) + tail, true)) == Done(i, Reader(tail, true))
  {
    Pow256Values();
    UIntInverts(I32Bits(i), 4, tail);
    I32BitsRoundTrip(i);
  }

  lemma BoolRoundTrip(b: bool, tail: seq<byte>)
    ensures ReadBool(Reader(Flatten(BoolOps(b)) + tail, true)) == Done(b, Reader(tail, true))
  {
    Pow256Values();
    UIntInverts(if b then 1 else 0, 1, tail);
  }

  function StrOps(s: ByteString): seq<WriteOp> { StringOps(s) }

  /** Every string survives `write_string` / `read_string`. */
  lemma StrRoundTrip(s: ByteString, tail: seq<byte>)
    ensures ReadStr(Reader(Flatten(StrOps(s)) + tail, true)) == Done(s, Reader(tail, true))
  {
    Pow256Values();
    StringRoundTrip(s, tail);
  }

  /** Every wide string survives `write_wstring` / `read_wstring`. */
  lemma WStrRoundTrip(s: WString, tail: seq<byte>)
    ensures ReadWStr(Reader(Flatten(WStrOps(s)) + tail, true)) == Done(s, Reader(tail, true))
  {
    Pow256Values();
    WStringRoundTrip(s, WCHAR_SIZE, tail);
  }

  // ---------------------------------------------------------------- streams

  /** An `std::istream` the codec reads from. */
  class IStream {
    var rest: seq<byte>
    var good: bool

    function State(): Reader
      reads this
    {
      Reader(rest, good)
    }

    constructor(data: seq<byte>)
      ensures State() == Reader(data, true)
    {
      rest, good := data, true;
    }

    method Load(o: Reader)
      modifies this
      ensures State() == o
    {
      rest, good := o.rest, o.good;
    }

    /** `read_primitive` of an n-byte value. */
    method ReadPrimitive(n: nat) returns (r: Result<seq<byte>>)
      modifies this
      ensures Mirrors(r, ReadBytes(old(State()), n), State())
    {
      if !good {
        return Fail(RuntimeError(BadStream));
      }
      var (bs, s) := RawRead(State(), n);
      Load(s);
      return Ok(bs);
    }

    method ReadString() returns (r: Result<seq<byte>>)
      modifies this
      ensures Mirrors(r, ParseString(old(State())), State())
    {
      var len := ReadPrimitive(SIZE_T);
      if len.Fail? {
        return Fail(len.error);
      }
      var (bs, s) := RawRead(State(), FromLE(len.value));
      Load(s);
      return Ok(bs);
    }

    method ReadWString(w: nat) returns (r: Result<seq<nat>>)
      modifies this
      ensures Mirrors(r, ParseWString(old(State()), w), State())
    {
      var len := ReadPrimitive(SIZE_T);
      if len.Fail? {
        return Fail(len.error);
      }
      var n := FromLE(len.value);
      if n * w >= Pow256(SIZE_T) {
        return Fail(BadAlloc(BadLengthMsg));
      }
      var (bs, s) := RawRead(State(), n * w);
      Load(s);
      return Ok(WideChars(bs, w, n));
    }

    /** `read_set`: clears the set, reads the count, then inserts `len` elements produced by the callback. */
    method ReadSet<T>(dec: Reader -> Decoded<T>) returns (r: Result<set<T>>)
      modifies this
      ensures Mirrors(r, ParseSet(old(State()), dec), State())
    {
      var acc: set<T> := {};
      var lenBytes := ReadPrimitive(SIZE_T);
      if lenBytes.Fail? {
        return Fail(lenBytes.error);
      }
      var len := FromLE(lenBytes.value);
      ghost var start := State();
      assert ParseSet(old(State()), dec) == ParseMany(start, len, dec, {});
      var i := 0;
      while i < len
        invariant 0 <= i <= len
        invariant ParseMany(start, len, dec, {}) == ParseMany(State(), len - i, dec, acc)
      {
        var o := dec(State());
        if o.Threw? {
          Load(o.state);
          return Fail(o.error);
        }
        Load(o.state);
        acc := acc + {o.value};
        i := i + 1;
      }
      return Ok(acc);
    }

    method ReadSetPrimitive() returns (r: Result<set<U64>>)
      modifies this
      ensures Mirrors(r, ParseSetPrimitive(old(State())), State())
    {
      r := ReadSet(ReadU64);
    }
  }

  /** An `std::ostream` the codec writes to. */
  class OStream {
    var written: seq<byte>
    var room: nat
    var good: bool

    function State(): Writer
      reads this
    {
      Writer(written, room, good)
    }

    constructor(room: nat)
      ensures State() == Writer([], room, true)
    {
      written, this.room, good := [], room, true;
    }

    method Store(w: Writer)
      modifies this
      ensures State() == w
    {
      written, room, good := w.written, w.room, w.good;
    }

    /** Runs a serializer's writes one after another. */
    method Write(ops: seq<WriteOp>) returns (r: Result<()>)
      modifies this
      ensures Settles(r, Run(old(State()), ops), State())
    {
      var i := 0;
      while i < |ops|
        invariant 0 <= i <= |ops|
        invariant Run(old(State()), ops) == Run(State(), ops[i..])
      {
        if ops[i].Checked? && !good {
          return Fail(RuntimeError(BadStream));
        }
        Store(Put(State(), ops[i].bytes));
        i := i + 1;
      }
      return Ok(());
    }

    /** `write_primitive`: returns sizeof(T). */
    method WritePrimitive(bs: seq<byte>) returns (r: Result<nat>)
      modifies this
      ensures r.Ok? ==> r.value == |bs|
      ensures Settles(r, Run(old(State()), Prim(bs)), State())
    {
      if !good {
        return Fail(RuntimeError(BadStream));
      }
      Store(Put(State(), bs));
      return Ok(|bs|);
    }

    /** `write_string`: returns the length plus sizeof(size_t), the bytes it wrote. */
    method WriteString(s: seq<byte>) returns (r: Result<nat>)
      modifies this
      ensures r.Ok? ==> r.value == |Flatten(StringOps(s))|
      ensures Settles(r, Run(old(State()), StringOps(s)), State())
    {
      var w := Write(StringOps(s));
      if w.Fail? {
        return Fail(w.error);
      }
      return Ok(|s| + SIZE_T);
    }

    /** `write_wstring` as written: returns the character count, not the bytes written. */
    method WriteWString(s: seq<nat>, width: nat) returns (r: Result<nat>)
      modifies this
      ensures r.Ok? ==> r.value == |s|
      ensures Settles(r, Run(old(State()), WStringOps(s, width)), State())
    {
      var w := Write(WStringOps(s, width));
      if w.Fail? {
        return Fail(w.error);
      }
      return Ok(|s|);
    }

    /** `write_set_typed` (and `write_set_primitive` with `U64Ops`): the count, then each element in ascending order. */
    method WriteSetTyped<T(!new)>(s: set<T>, lt: (T, T) -> bool, enc: T -> seq<WriteOp>) returns (r: Result<()>)
      requires StrictTotal(lt)
      modifies this
      ensures Settles(r, Run(old(State()), SetTypedOps(s, lt, enc)), State())
    {
      var head := [Checked(LE(|s|, SIZE_T))];
      var xs := Sorted(s, lt);
      RunAppend(State(), head, ConcatOps(xs, enc));
      r := Write(head);
      if r.Fail? {
        return;
      }
      ghost var mid := State();
      var i := 0;
      while i < |xs|
        invariant 0 <= i <= |xs|
        invariant Run(mid, ConcatOps(xs, enc)) == Run(State(), ConcatOps(xs[i..], enc))
      {
        assert xs[i..][1..] == xs[i + 1..];
        RunAppend(State(), enc(xs[i]), ConcatOps(xs[i + 1..], enc));
        r := Write(enc(xs[i]));
        if r.Fail? {
          return;
        }
        i := i + 1;
      }
      return Ok(());
    }

    method WriteSetPrimitive(s: set<U64>) returns (r: Result<()>)
      modifies this
      ensures Settles(r, Run(old(State()), SetPrimitiveOps(s)), State())
    {
      U64LessTotal();
      r := WriteSetTyped(s, U64Less, U64Ops);
    }
  }
}
