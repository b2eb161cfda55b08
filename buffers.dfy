// The in-memory stream buffer `memory_buf` (BaseLibrary/buffers.h, BaseLibrary/buffers.cpp;
// BaseLibrary/abstractions.h holds an older copy with the same definitions).
//
// The buffer owns a byte array; the get area and the put area of the underlying
// `std::streambuf` both start at the array, so each area is described by the offset of
// its cursor (`gptr() - eback()`, `pptr() - pbase()`) and the offset of its end.

module Buffers {
  import opened Wire
  import opened Errors

  /** `std::ios_base::seekdir`. */
  datatype SeekDir = Beg | Cur | End

  /** The `std::ios_base::openmode` bits a seek looks at. */
  datatype OpenMode = OpenMode(input: bool, output: bool)

  /** The default mode of `seekoff` and `seekpos`: both areas. */
  const InOut := OpenMode(true, true)

  /** The position a seek names before its bounds are checked. */
  function SeekTarget(base: int, now: int, end: int, off: int, way: SeekDir): int
  {
    match way
    case Beg => base + off
    case Cur => now + off
    case End => end + off
  }

  /** `calcOffset`: the sought position, or `length_error` when it leaves [base, end]. */
  function CalcOffset(base: int, now: int, end: int, off: int, way: SeekDir): (r: Result<int>)
    ensures r.Ok? <==> base <= SeekTarget(base, now, end, off, way) <= end
    ensures r.Ok? ==> r.value == SeekTarget(base, now, end, off, way) && base <= r.value <= end
    ensures r.Fail? ==> r.error == LengthError("Invalid position")
  {
    var target := SeekTarget(base, now, end, off, way);
    if target < base || target > end then Fail(LengthError("Invalid position"))
    else Ok(target)
  }

  /** A relative seek and a seek from the end land where the matching seek from the start does. */
  lemma SeekDirectionsAgree(base: int, now: int, end: int, off: int, other: int)
    ensures CalcOffset(base, now, end, off, Cur) == CalcOffset(base, other, end, now + off - base, Beg)
    ensures CalcOffset(base, now, end, off, End) == CalcOffset(base, other, end, end + off - base, Beg)
  {
  }

  /** A relative seek that succeeds is undone by the opposite relative seek. */
  lemma SeekBack(base: int, now: int, end: int, off: int)
    requires base <= now <= end
    ensures CalcOffset(base, now, end, off, Cur).Ok? ==>
              CalcOffset(base, CalcOffset(base, now, end, off, Cur).value, end, -off, Cur) == Ok(now)
  {
  }

  /** The two cursors of the buffer, as offsets from the start of the data. */
  datatype Cursors = Cursors(inNext: int, outNext: int)

  /**
   * What `seekoff(off, way, which)` does to the cursors: the get area is sought first and
   * its cursor moved, then the put area; a failing bound check throws at that point, so a
   * put-area failure leaves an already moved get cursor in place.  The result is the last
   * position computed (0, the default `streampos`, when neither area is named).
   */
  function SeekSpec(c: Cursors, inEnd: int, outEnd: int, off: int, way: SeekDir, which: OpenMode): (Cursors, Result<int>)
  {
    var g := CalcOffset(0, c.inNext, inEnd, off, way);
    if which.input && g.Fail? then (c, Fail(g.error))
    else
      var c1 := if which.input then c.(inNext := g.value) else c;
      var p := CalcOffset(0, c1.outNext, outEnd, off, way);
      if which.output && p.Fail? then (c1, Fail(p.error))
      else if which.output then (c1.(outNext := p.value), Ok(p.value))
      else if which.input then (c1, Ok(g.value))
      else (c1, Ok(0))
  }

  /** A seek keeps both cursors inside their areas and reports a position inside them. */
  lemma SeekStaysInArea(c: Cursors, inEnd: int, outEnd: int, off: int, way: SeekDir, which: OpenMode)
    requires 0 <= c.inNext <= inEnd && 0 <= c.outNext <= outEnd
    ensures var (d, r) := SeekSpec(c, inEnd, outEnd, off, way, which);
            0 <= d.inNext <= inEnd && 0 <= d.outNext <= outEnd &&
            (r.Ok? ==> 0 <= r.value <= (if which.output then outEnd else inEnd))
  {
  }

  /** A seek fails exactly when one of the named areas cannot hold the target, and then with `length_error`. */
  lemma SeekFailsOutOfArea(c: Cursors, inEnd: int, outEnd: int, off: int, way: SeekDir, which: OpenMode)
    ensures var (d, r) := SeekSpec(c, inEnd, outEnd, off, way, which);
            (r.Fail? <==> (which.input && CalcOffset(0, c.inNext, inEnd, off, way).Fail?)
                          || (which.output && CalcOffset(0, c.outNext, outEnd, off, way).Fail?)) &&
            (r.Fail? ==> r.error == LengthError("Invalid position") && d.outNext == c.outNext)
  {
  }

  /** Seeking both areas from the start or from the end leaves the two cursors together. */
  lemma AbsoluteSeekJoinsCursors(c: Cursors, len: int, off: int, way: SeekDir)
    requires way != Cur
    ensures var (d, r) := SeekSpec(c, len, len, off, way, InOut);
            (r.Ok? <==> 0 <= SeekTarget(0, 0, len, off, way) <= len) &&
            (r.Ok? ==> d.inNext == d.outNext == r.value == SeekTarget(0, 0, len, off, way)) &&
            (r.Fail? ==> d == c)
  {
  }

  /** A relative seek of both areas whose get target fits but whose put target does not moves the get cursor only. */
  lemma RelativeSeekMovesHalf(c: Cursors, len: int, off: int)
    requires 0 <= c.inNext + off <= len
    requires !(0 <= c.outNext + off <= len)
    ensures SeekSpec(c, len, len, off, Cur, InOut) == (Cursors(c.inNext + off, c.outNext), Fail(LengthError("Invalid position")))
  {
  }

  /** A seek naming neither area changes nothing and reports position 0. */
  lemma SeekNeither(c: Cursors, inEnd: int, outEnd: int, off: int, way: SeekDir)
    ensures SeekSpec(c, inEnd, outEnd, off, way, OpenMode(false, false)) == (c, Ok(0))
  {
  }

  /** The arrays a `delete[]` of the given data releases: none for `nullptr`. */
  function Released(p: array?<byte>): seq<array<byte>>
  {
    if p == null then [] else [p]
  }

  /** `memory_buf`: an owned byte array, its length in use and its allocated capacity. */
  class MemoryBuf {
    var data: array?<byte>
    var length: nat
    var capacity: nat
    /** Offsets of the get cursor and the get-area end (`gptr`, `egptr`). */
    var inNext: nat
    var inEnd: nat
    /** Offsets of the put cursor and the put-area end (`pptr`, `epptr`). */
    var outNext: nat
    var outEnd: nat
    /** The arrays this buffer has released with `delete[]`, oldest first. */
    ghost var released: seq<array<byte>>

    /** The capacity is the allocated array's size, the length fits in it, and both areas span the length. */
    predicate Valid()
      reads this
    {
      capacity == (if data == null then 0 else data.Length) &&
      length <= capacity &&
      inEnd == length && outEnd == length &&
      inNext <= inEnd && outNext <= outEnd
    }

    /** Both cursors at the start of areas spanning the whole length, as `updateBuffer` leaves them. */
    predicate Rewound()
      reads this
    {
      inNext == 0 && outNext == 0 && inEnd == length && outEnd == length
    }

    /** The default constructor: no data, length and capacity 0. */
    constructor()
      ensures Valid() && Rewound()
      ensures data == null && length == 0 && capacity == 0 && released == []
    {
      data := null;
      length := 0;
      capacity := 0;
      inNext, inEnd, outNext, outEnd := 0, 0, 0, 0;
      released := [];
    }

    /** `memory_buf(buffer, length)`: takes ownership of a buffer holding `len` bytes. */
    constructor FromBuffer(buffer: array<byte>, len: nat)
      requires buffer.Length == len
      ensures Valid() && Rewound()
      ensures data == buffer && length == len && capacity == len && released == []
    {
      capacity := len;
      data := buffer;
      length := 0;
      inNext, inEnd, outNext, outEnd := 0, 0, 0, 0;
      released := [];
      new;
      var ok := SetLength(len, false);
    }

    /** `updateBuffer`: both areas become [data, data + length) with their cursors at the start. */
    method UpdateBuffer()
      requires capacity == (if data == null then 0 else data.Length) && length <= capacity
      modifies this
      ensures Valid() && Rewound()
      ensures data == old(data) && length == old(length) && capacity == old(capacity) && released == old(released)
    {
      inNext, inEnd := 0, length;
      outNext, outEnd := 0, length;
    }

    /** `getInPosition`: the get cursor's offset, never past the length. */
    function InPosition(): (p: int)
      requires Valid()
      reads this
      ensures 0 <= p <= length
    {
      inNext
    }

    /** `getOutPosition`: the put cursor's offset, never past the length. */
    function OutPosition(): (p: int)
      requires Valid()
      reads this
      ensures 0 <= p <= length
    {
      outNext
    }

    /**
     * `setLength(len, expand)`: without data, or when `len` exceeds the capacity, it fails
     * unless `expand` allows a fresh array of exactly `len` bytes (the old one is released);
     * otherwise only the length changes.  Success rewinds both cursors.
     */
    method SetLength(len: nat, expand: bool) returns (ok: bool)
      requires Valid()
      modifies this
      ensures Valid()
      ensures ok <==> (old(data) != null && len <= old(capacity)) || expand
      ensures !ok ==> unchanged(this)
      ensures ok ==> Rewound() && length == len
      ensures ok && old(data) != null && len <= old(capacity) ==>
                data == old(data) && capacity == old(capacity) && released == old(released)
      ensures ok && (old(data) == null || len > old(capacity)) ==>
                fresh(data) && capacity == len && released == old(released) + Released(old(data))
    {
      if data == null || len > capacity {
        if !expand {
          return false;
        }
        released := released + Released(data);
        data := new byte[len];
        length, capacity := len, len;
      } else {
        length := len;
      }
      UpdateBuffer();
      return true;
    }

    /**
     * `setData(p, n)`: takes ownership of `p` holding `n` bytes, releasing the old array
     * unless it is `p` itself; length and capacity become `n` and both cursors rewind.
     */
    method SetData(p: array?<byte>, n: nat)
      requires p == null ==> n == 0
      requires p != null ==> p.Length == n
      modifies this
      ensures Valid() && Rewound()
      ensures data == p && length == n && capacity == n
      ensures released == old(released) + (if old(data) != p then Released(old(data)) else [])
    {
      if data != null && data != p {
        released := released + [data];
      }
      length, capacity := n, n;
      data := p;
      UpdateBuffer();
    }

    /** `setData(n)`: installs a fresh array of exactly `n` bytes. */
    method Allocate(n: nat)
      modifies this
      ensures Valid() && Rewound()
      ensures fresh(data) && length == n && capacity == n
      ensures released == old(released) + Released(old(data))
    {
      var block := new byte[n];
      SetData(block, n);
    }

    /** `dispose` (and the destructor): releases the data; length and capacity drop to 0. */
    method Dispose()
      modifies this
      ensures Valid() && Rewound()
      ensures data == null && length == 0 && capacity == 0
      ensures released == old(released) + Released(old(data))
    {
      SetData(null, 0);
    }

    /** `seekoff(off, way, which)`: moves the named cursors as `SeekSpec` describes. */
    method SeekOff(off: int, way: SeekDir, which: OpenMode) returns (r: Result<int>)
      requires Valid()
      modifies this
      ensures Valid()
      ensures data == old(data) && length == old(length) && capacity == old(capacity)
      ensures inEnd == old(inEnd) && outEnd == old(outEnd) && released == old(released)
      ensures (Cursors(inNext, outNext), r) == SeekSpec(Cursors(old(inNext), old(outNext)), inEnd, outEnd, off, way, which)
    {
      var lastPos := 0;
      if which.input {
        var now := CalcOffset(0, inNext, inEnd, off, way);
        if now.Fail? {
          return Fail(now.error);
        }
        inNext := now.value;
        lastPos := now.value;
      }
      if which.output {
        var now := CalcOffset(0, outNext, outEnd, off, way);
        if now.Fail? {
          return Fail(now.error);
        }
        outNext := now.value;
        lastPos := now.value;
      }
      return Ok(lastPos);
    }

    /** `seekpos(sp, which)`: the seek from the start, `seekoff(sp, beg, which)`. */
    method SeekPos(sp: int, which: OpenMode) returns (r: Result<int>)
      requires Valid()
      modifies this
      ensures Valid()
      ensures data == old(data) && length == old(length) && capacity == old(capacity)
      ensures inEnd == old(inEnd) && outEnd == old(outEnd) && released == old(released)
      ensures (Cursors(inNext, outNext), r) == SeekSpec(Cursors(old(inNext), old(outNext)), inEnd, outEnd, sp, Beg, which)
    {
      r := SeekOff(sp, Beg, which);
    }
  }
}
