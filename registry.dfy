/**
 * The type registry of `Serialization` (serialization.h): the one-byte type
 * tags, the table `TypeInfo::TYPES` from tag to {registered, constructor,
 * parent, name}, the memo `TypeInfo::NATIVE_TYPES`, the parent-chain test
 * `is_assignable`, and the checks `new_instance` makes before it builds an
 * object for a tag read off a stream.
 *
 * A C++ class is identified here by the tag its `getType()` returns; the two
 * abstract bases (`TrackablePacket`, `TransactionReply`) by the tag named
 * after them.
 */
module Registry {
  import opened Wire
  import opened Errors
  import opened Numerals
  import opened Binary

  /** `Serialization::Type`: an enum over `uint8_t`, so any byte read off a stream is a tag. */
  type Tag = U8

  const TagUnknown: Tag := 0
  const TagPing: Tag := 1
  const TagPingReply: Tag := 2
  const TagTrackablePacket: Tag := 3
  const TagTransactionReply: Tag := 4
  const TagRestaurantManager: Tag := 5
  const TagDate: Tag := 6
  const TagDateTime: Tag := 7
  const TagShift: Tag := 8
  const TagShiftWorker: Tag := 9
  const TagC2SAuthorize: Tag := 10
  const TagS2CAuthorizeReply: Tag := 11
  const TagC2SGetShiftsByDay: Tag := 12
  const TagS2CGetShiftsReply: Tag := 13
  const TagC2SInsertShift: Tag := 14
  const TagS2CInsertShiftReply: Tag := 15
  const TagC2SDeleteShift: Tag := 16
  const TagS2CDeleteShiftReply: Tag := 17
  const TagC2SGetWorkers: Tag := 18
  const TagS2CGetWorkersReply: Tag := 19
  const TagC2SInsertWorker: Tag := 20
  const TagS2CInsertWorkerReply: Tag := 21
  const TagC2SDeleteWorker: Tag := 22
  const TagS2CDeleteWorkerReply: Tag := 23
  const TagS2CClientSync: Tag := 24

  /** The classes `build_constructor` can instantiate: the concrete payload classes with a default constructor. */
  predicate Constructible(c: Tag)
  {
    c == TagPing || c == TagPingReply || TagDate <= c <= TagS2CClientSync
  }

  type PayloadClass = c: Tag | Constructible(c) witness TagPing

  /** The C++ base class of each class (`Unknown` standing for `Serializable` itself). */
  function ClassParent(c: Tag): (p: Tag)
    ensures p == TagUnknown || p == TagDate || p == TagTrackablePacket || p == TagTransactionReply
  {
    if c == TagDateTime then TagDate
    else if c == TagTransactionReply then TagTrackablePacket
    else if TagC2SAuthorize <= c <= TagS2CDeleteWorkerReply then
      (if c % 2 == 0 then TagTrackablePacket else TagTransactionReply)
    else TagUnknown
  }

  /** `typeid(T).name()` in MSVC's spelling, for the classes that are ever registered. */
  function ClassName(c: Tag): string
  {
    if c == TagPing then "class Ping"
    else if c == TagPingReply then "class PingReply"
    else if c == TagTrackablePacket then "class TrackablePacket"
    else if c == TagTransactionReply then "class TransactionReply"
    else if c == TagRestaurantManager then "class RestaurantManager"
    else if c == TagDate then "class Date"
    else if c == TagDateTime then "class DateTime"
    else if c == TagShift then "class Shift"
    else if c == TagShiftWorker then "class ShiftWorker"
    else if c == TagC2SAuthorize then "class C2S_Authorize"
    else if c == TagS2CAuthorizeReply then "class S2C_AuthorizeReply"
    else if c == TagC2SGetShiftsByDay then "class C2S_GetShiftsByDay"
    else if c == TagS2CGetShiftsReply then "class S2C_GetShiftsReply"
    else if c == TagC2SInsertShift then "class C2S_InsertShift"
    else if c == TagS2CInsertShiftReply then "class S2C_InsertShiftReply"
    else if c == TagC2SDeleteShift then "class C2S_DeleteShift"
    else if c == TagS2CDeleteShiftReply then "class S2C_DeleteShiftReply"
    else if c == TagC2SGetWorkers then "class C2S_GetWorkers"
    else if c == TagS2CGetWorkersReply then "class S2C_GetWorkersReply"
    else if c == TagC2SInsertWorker then "class C2S_InsertWorker"
    else if c == TagS2CInsertWorkerReply then "class S2C_InsertWorkerReply"
    else if c == TagC2SDeleteWorker then "class C2S_DeleteWorker"
    else if c == TagS2CDeleteWorkerReply then "class S2C_DeleteWorkerReply"
    else "class S2C_ClientSync"
  }

  /**
   * One entry of `TypeInfo::TYPES`.  `ctor` is the class the stored
   * constructor builds, or None for the null constructor of a base type;
   * `name` is None for a null name pointer.
   */
  datatype TypeInfo = TypeInfo(registered: bool, ctor: Option<PayloadClass>, parent: Tag, name: Option<string>)

  type Types = map<Tag, TypeInfo>

  // ------------------------------------------------------- assignability

  /** Whether `lhs` is met while following registered parents upward from `cur`, in at most `fuel` steps. */
  function Walk(types: Types, lhs: Tag, cur: Tag, fuel: nat): bool
    decreases fuel
  {
    fuel > 0 && cur in types && (types[cur].parent == lhs || Walk(types, lhs, types[cur].parent, fuel - 1))
  }

  /** `is_assignable(lhs, rhs)`: lhs is rhs itself or lies on rhs's registered parent chain. */
  function Assignable(types: Types, lhs: Tag, rhs: Tag): (b: bool)
    ensures lhs == rhs ==> b
    ensures lhs != rhs && rhs !in types ==> !b
  {
    lhs == rhs || Walk(types, lhs, rhs, |types|)
  }

  /**
   * The acyclicity the walk in `is_assignable` needs to stop: a rank for
   * every registered tag, below the table's size, strictly above the rank of
   * its parent whenever the parent is registered.
   */
  ghost predicate Ranked(types: Types, rank: map<Tag, nat>)
  {
    forall t :: t in types ==>
      t in rank && rank[t] < |types| &&
      (types[t].parent in types ==> types[t].parent in rank && rank[types[t].parent] < rank[t])
  }

  /** With enough fuel to outlast the chain, the fuel no longer matters. */
  lemma {:induction false} WalkFuel(types: Types, rank: map<Tag, nat>, lhs: Tag, cur: Tag, f: nat, g: nat)
    requires Ranked(types, rank)
    requires cur in types ==> f > rank[cur] && g > rank[cur]
    ensures Walk(types, lhs, cur, f) == Walk(types, lhs, cur, g)
    decreases f
  {
    if cur in types {
      var p := types[cur].parent;
      if p != lhs {
        WalkFuel(types, rank, lhs, p, f - 1, g - 1);
      }
    }
  }

  /** If b lies on c's chain and a on b's, then a lies on c's chain. */
  lemma {:induction false} WalkThrough(types: Types, rank: map<Tag, nat>, a: Tag, b: Tag, c: Tag, f: nat)
    requires Ranked(types, rank)
    requires Walk(types, b, c, f) && (a == b || Walk(types, a, b, |types|))
    ensures Walk(types, a, c, |types|)
    decreases f
  {
    var p := types[c].parent;
    if p == b {
      if a != b && p in types {
        WalkFuel(types, rank, a, p, |types|, |types| - 1);
      }
    } else {
      WalkThrough(types, rank, a, b, p, f - 1);
      if p != a {
        WalkFuel(types, rank, a, p, |types|, |types| - 1);
      }
    }
  }

  /** Assignability is transitive along the chain: an ancestor of an ancestor is an ancestor. */
  lemma AssignableTransitive(types: Types, rank: map<Tag, nat>, a: Tag, b: Tag, c: Tag)
    requires Ranked(types, rank)
    requires Assignable(types, a, b) && Assignable(types, b, c)
    ensures Assignable(types, a, c)
  {
    if b != c {
      WalkThrough(types, rank, a, b, c, |types|);
    }
  }

  /** Every parent is either registered or `Unknown`: every chain ends at `Unknown`. */
  ghost predicate Closed(types: Types)
  {
    forall t :: t in types ==> types[t].parent == TagUnknown || types[t].parent in types
  }

  /** In a closed table without an entry for `Unknown`, `Unknown` is an ancestor of every registered tag. */
  lemma {:induction false} UnknownIsAncestor(types: Types, rank: map<Tag, nat>, t: Tag, f: nat)
    requires Ranked(types, rank) && Closed(types) && TagUnknown !in types
    requires t in types && f > rank[t]
    ensures Walk(types, TagUnknown, t, f)
    decreases f
  {
    var p := types[t].parent;
    if p != TagUnknown {
      UnknownIsAncestor(types, rank, p, f - 1);
    }
  }

  lemma UnknownAssignableFromAll(types: Types, rank: map<Tag, nat>, t: Tag)
    requires Ranked(types, rank) && Closed(types) && TagUnknown !in types
    requires t in types
    ensures Assignable(types, TagUnknown, t)
  {
    UnknownIsAncestor(types, rank, t, |types|);
  }

  // ------------------------------------------------------------ lookups

  /** `get_type_name`: the registered name, else `#` and the tag in decimal. */
  function TypeName(types: Types, t: Tag): (s: string)
    ensures t in types && types[t].name.Some? ==> s == types[t].name.value
    ensures !(t in types && types[t].name.Some?) ==> s == "#" + Decimal(t)
  {
    if t in types && types[t].name.Some? then types[t].name.value else "#" + Decimal(t)
  }

  const AlreadyRegistered: string := "the specified type is already registered"

  /**
   * `new_instance<T>(baseType, type)`: the checks in their order, then the
   * class the stored constructor builds.
   */
  function NewInstance(types: Types, base: Tag, t: Tag): (r: Result<PayloadClass>)
    ensures r.Ok? <==> (base == TagUnknown || base in types) && t in types && Assignable(types, base, t)
                       && types[t].ctor.Some?
    ensures r.Ok? ==> r.value == types[t].ctor.value
    ensures base != TagUnknown && base !in types ==> r == Fail(RuntimeError("unregistered base type " + TypeName(types, base)))
    ensures (base == TagUnknown || base in types) && t !in types
            ==> r == Fail(RuntimeError("unregistered target type " + TypeName(types, t)))
  {
    if base != TagUnknown && base !in types then
      Fail(RuntimeError("unregistered base type " + TypeName(types, base)))
    else if t !in types then
      Fail(RuntimeError("unregistered target type " + TypeName(types, t)))
    else if !Assignable(types, base, t) then
      Fail(RuntimeError("target type is not derived from given base type " + TypeName(types, base) + " <- "
                        + TypeName(types, t)))
    else if types[t].ctor.None? then
      Fail(RuntimeError("target type is a base type " + TypeName(types, t)))
    else
      Ok(types[t].ctor.value)
  }

  /** The non-generic `new_instance(type)`: only the registration and constructor checks. */
  function NewAnyInstance(types: Types, t: Tag): (r: Result<PayloadClass>)
    ensures r.Ok? <==> t in types && types[t].ctor.Some?
    ensures r.Ok? ==> r.value == types[t].ctor.value
    ensures t !in types ==> r == Fail(RuntimeError("unregistered target type " + TypeName(types, t)))
  {
    if t !in types then Fail(RuntimeError("unregistered target type " + TypeName(types, t)))
    else if types[t].ctor.None? then Fail(RuntimeError("target type is a base type " + TypeName(types, t)))
    else Ok(types[t].ctor.value)
  }

  /** With `Unknown` as the base, the generic checks reduce to the non-generic ones in a closed table. */
  lemma NewInstanceFromUnknown(types: Types, rank: map<Tag, nat>, t: Tag)
    requires Ranked(types, rank) && Closed(types) && TagUnknown !in types
    ensures NewInstance(types, TagUnknown, t) == NewAnyInstance(types, t)
  {
    if t in types {
      UnknownAssignableFromAll(types, rank, t);
    }
  }

  /**
   * The tag peek of `new_instance(source)`: `read_primitive` of one byte, then
   * `putback`.  On a good stream with a byte left the stream is unchanged.
   * With no byte left the read fails the stream, `putback` does nothing, and
   * the uninitialised tag is taken as 0.
   */
  function Peek(r: Reader): (o: Decoded<Tag>)
    ensures o.Threw? <==> !r.good
    ensures r.good && |r.rest| > 0 ==> o == Done(r.rest[0], r)
    ensures r.good && |r.rest| == 0 ==> o == Done(0, Reader([], false))
  {
    if !r.good then Threw(RuntimeError(BadStream), r)
    else if |r.rest| > 0 then Done(r.rest[0], r)
    else Done(0, Reader([], false))
  }

  /** `new_instance<T>(baseType, source)`: peek the tag, then the checks. */
  function NewInstanceFrom(types: Types, base: Tag, r: Reader): (o: Decoded<PayloadClass>)
    ensures r.good && |r.rest| > 0 ==>
              match NewInstance(types, base, r.rest[0])
              case Ok(c) => o == Done(c, r)
              case Fail(e) => o == Threw(e, r)
  {
    var t :- Peek(r);
    match NewInstance(types, base, t.0)
    case Ok(c) => Done(c, t.1)
    case Fail(e) => Threw(e, t.1)
  }

  /** The non-generic `new_instance(source)`. */
  function NewAnyInstanceFrom(types: Types, r: Reader): (o: Decoded<PayloadClass>)
    ensures r.good && |r.rest| > 0 ==>
              match NewAnyInstance(types, r.rest[0])
              case Ok(c) => o == Done(c, r)
              case Fail(e) => o == Threw(e, r)
  {
    var t :- Peek(r);
    match NewAnyInstance(types, t.0)
    case Ok(c) => Done(c, t.1)
    case Fail(e) => Threw(e, t.1)
  }

  // ------------------------------------------------------- the registry

  /** The static tables `TypeInfo::TYPES` and `TypeInfo::NATIVE_TYPES`. */
  class TypeRegistry {
    var types: Types
    /** NATIVE_TYPES: from a class to the tag recorded for it. */
    var natives: map<Tag, Tag>
    ghost var rank: map<Tag, nat>

    /** Only the registration functions create entries, and they mark them registered. */
    ghost predicate Registered()
      reads this`types
    {
      forall t :: t in types ==> types[t].registered
    }

    /** The parent chains are acyclic, as `is_assignable` needs to stop. */
    ghost predicate Valid()
      reads this`types, this`rank
    {
      Registered() && Ranked(types, rank)
    }

    /** Every class recorded in NATIVE_TYPES is recorded under its own tag. */
    ghost predicate NativesOwn()
      reads this`natives
    {
      forall c :: c in natives ==> natives[c] == c
    }

    /** Registering `t` with parent p keeps the chains acyclic when nothing registered already names t as its parent. */
    ghost predicate FreshLeaf(t: Tag, parent: Tag)
      reads this`types
    {
      parent != t && forall u :: u in types ==> types[u].parent != t
    }

    constructor()
      ensures Valid() && NativesOwn() && types == map[] && natives == map[]
    {
      types, natives, rank := map[], map[], map[];
    }

    /** `register_type<T>(type, parent)`. */
    method RegisterType(cls: PayloadClass, t: Tag, parent: Tag) returns (r: Result<()>)
      requires Registered()
      modifies this
      ensures t in old(types) ==> r == Fail(RuntimeError(AlreadyRegistered)) && types == old(types)
      ensures t !in old(types) ==>
                r == Ok(()) && types == old(types)[t := TypeInfo(true, Some(cls), parent, Some(ClassName(cls)))]
      ensures natives == old(natives) && Registered()
      ensures old(Valid()) && (t in old(types) || old(FreshLeaf(t, parent))) ==> Valid()
    {
      if t in types && types[t].registered {
        return Fail(RuntimeError(AlreadyRegistered));
      }
      Insert(t, TypeInfo(true, Some(cls), parent, Some(ClassName(cls))));
      return Ok(());
    }

    /** `register_base_type<T>(type, parent)`: a null constructor, and T recorded in NATIVE_TYPES. */
    method RegisterBaseType(cls: Tag, t: Tag, parent: Tag) returns (r: Result<()>)
      requires Registered()
      modifies this
      ensures t in old(types) ==> r == Fail(RuntimeError(AlreadyRegistered)) && types == old(types) && natives == old(natives)
      ensures t !in old(types) ==>
                r == Ok(()) && types == old(types)[t := TypeInfo(true, None, parent, Some(ClassName(cls)))]
                && natives == old(natives)[cls := t]
      ensures Registered()
      ensures old(Valid()) && (t in old(types) || old(FreshLeaf(t, parent))) ==> Valid()
      ensures old(NativesOwn()) && cls == t ==> NativesOwn()
    {
      if t in types && types[t].registered {
        return Fail(RuntimeError(AlreadyRegistered));
      }
      Insert(t, TypeInfo(true, None, parent, Some(ClassName(cls))));
      natives := natives[cls := t];
      return Ok(());
    }

    /** Adds an entry for an unregistered tag, ranking it above every entry present. */
    method Insert(t: Tag, info: TypeInfo)
      requires Registered() && t !in types && info.registered
      modifies this
      ensures types == old(types)[t := info] && natives == old(natives) && Registered()
      ensures old(Valid()) && old(FreshLeaf(t, info.parent)) ==> Valid()
    {
      ghost var n := |types|;
      ghost var wasValid := Valid();
      types := types[t := info];
      assert |types| == n + 1 by {
        assert types.Keys == old(types).Keys + {t};
      }
      if wasValid && old(FreshLeaf(t, info.parent)) {
        rank := rank[t := n];
        forall u | u in types
          ensures u in rank && rank[u] < |types|
          ensures types[u].parent in types ==> types[u].parent in rank && rank[types[u].parent] < rank[u]
        {
          if u != t {
            assert u in old(types);
          }
        }
      }
    }

    /** `get_type<T>()`: the tag recorded for T, or T's own tag, recorded on first use. */
    method GetType(cls: Tag) returns (t: Tag)
      modifies this
      ensures t == if cls in old(natives) then old(natives)[cls] else cls
      ensures natives == old(natives)[cls := t] && types == old(types) && rank == old(rank)
      ensures old(NativesOwn()) ==> t == cls && NativesOwn()
    {
      if cls in natives {
        return natives[cls];
      }
      natives := natives[cls := cls];
      return cls;
    }

    /** `register_type<T>()` and `register_derived<T>(parent)`: T's tag from `get_type<T>()`, then `register_type`. */
    method RegisterDerived(cls: PayloadClass, parent: Tag) returns (r: Result<()>)
      requires Registered() && NativesOwn()
      modifies this
      ensures natives == old(natives)[cls := cls] && NativesOwn() && Registered()
      ensures cls in old(types) ==> r == Fail(RuntimeError(AlreadyRegistered)) && types == old(types)
      ensures cls !in old(types) ==>
                r == Ok(()) && types == old(types)[cls := TypeInfo(true, Some(cls), parent, Some(ClassName(cls)))]
      ensures old(Valid()) && (cls in old(types) || old(FreshLeaf(cls, parent))) ==> Valid()
    {
      var t := GetType(cls);
      r := RegisterType(cls, t, parent);
    }

    /** `register_derived<T, TParent>()`: both tags from `get_type`, then `register_type`. */
    method RegisterDerivedOf(cls: PayloadClass, parentCls: Tag) returns (r: Result<()>)
      requires Registered() && NativesOwn()
      modifies this
      ensures natives == old(natives)[cls := cls][parentCls := parentCls] && NativesOwn() && Registered()
      ensures cls in old(types) ==> r == Fail(RuntimeError(AlreadyRegistered)) && types == old(types)
      ensures cls !in old(types) ==>
                r == Ok(()) && types == old(types)[cls := TypeInfo(true, Some(cls), parentCls, Some(ClassName(cls)))]
      ensures old(Valid()) && (cls in old(types) || old(FreshLeaf(cls, parentCls))) ==> Valid()
    {
      var t := GetType(cls);
      var p := GetType(parentCls);
      r := RegisterType(cls, t, p);
    }

    /** `is_assignable`: follow registered parents until lhs appears or the chain leaves the table. */
    method IsAssignable(lhs: Tag, rhs: Tag) returns (b: bool)
      requires Valid()
      ensures b == Assignable(types, lhs, rhs)
    {
      if lhs == rhs {
        return true;
      }
      var cur := rhs;
      while cur in types
        invariant Walk(types, lhs, rhs, |types|) == Walk(types, lhs, cur, |types|)
        decreases if cur in types then rank[cur] + 1 else 0
      {
        var next := types[cur].parent;
        if lhs == next {
          return true;
        }
        if next in types {
          WalkFuel(types, rank, lhs, next, |types| - 1, |types|);
        }
        cur := next;
      }
      return false;
    }
  }
}
