/**
 * The part of every payload that `Serializable` itself reads and writes: one
 * byte holding the receiver's own type tag, which `deserialize` insists on
 * seeing exactly.
 */
module Serial {
  import opened Wire
  import opened Errors
  import opened Numerals
  import opened Binary
  import opened Registry

  /** `Serializable::serialize`: `write_primitive` of the receiver's own tag. */
  function TagOps(own: Tag): seq<WriteOp> { U8Ops(own) }

  /** A `char` on MSVC is signed: the value a byte takes once read into one. */
  function SignedChar(b: byte): (c: int)
    ensures -128 <= c < 128
    ensures c == b <==> b < 128
  {
    if b < 128 then b else b - 256
  }

  function Incompatible(own: Tag, b: byte): string
  {
    "incompatible object type #" + Decimal(own) + " <- #" + SignedDecimal(SignedChar(b))
  }

  /**
   * `Serializable::deserialize`: reads one `char` and throws unless it equals
   * the receiver's own tag.  On an exhausted stream the unread `char` is taken
   * as 0, which no payload class uses as its tag.
   */
  function CheckTag(own: Tag, r: Reader): (o: Decoded<Tag>)
    ensures o.Done? ==> o.value == own
    ensures !r.good ==> o == Threw(RuntimeError(BadStream), r)
  {
    var c :- ReadBytes(r, 1);
    if SignedChar(c.0[0]) != own then Threw(RuntimeError(Incompatible(own, c.0[0])), c.1)
    else Done(own, c.1)
  }

  /** The tag byte is accepted exactly when it is the receiver's own. */
  lemma CheckTagAccepts(own: Tag, b: byte, tail: seq<byte>)
    ensures CheckTag(own, Reader([b] + tail, true)) ==
            if b == own && b < 128 then Done(own, Reader(tail, true))
            else Threw(RuntimeError(Incompatible(own, b)), Reader(tail, true))
  {
    assert ([b] + tail)[..1] == [b] && ([b] + tail)[1..] == tail;
  }

  /** What `serialize` writes for the base part is one byte, the tag. */
  lemma TagOpsBytes(own: Tag)
    ensures Flatten(TagOps(own)) == [own]
  {
    assert Flatten(TagOps(own)) == LE(own, 1);
  }

  /** A receiver reads back its own tag, and rejects every other, ancestor and descendant tags included. */
  lemma {:induction false} TagRoundTrip(own: Tag, written: Tag, tail: seq<byte>)
    requires own < 128
    ensures CheckTag(own, Reader(Flatten(TagOps(written)) + tail, true)).Done? <==> written == own
    ensures written == own ==> CheckTag(own, Reader(Flatten(TagOps(written)) + tail, true)) == Done(own, Reader(tail, true))
  {
    TagOpsBytes(written);
    CheckTagAccepts(own, written, tail);
  }

  /** A failed stream is refused before anything is read. */
  lemma CheckTagBadStream(own: Tag, r: Reader)
    requires !r.good
    ensures CheckTag(own, r) == Threw(RuntimeError(BadStream), r)
  {
  }
}
