/**
 * `register_models` (models.h): the concrete class hierarchy every program
 * that reads payloads installs in the type registry before it reads any.
 */
module Models {
  import opened Errors
  import opened Registry
  import opened Numerals

  /** The entry `register_type<T>` stores for a constructible class. */
  function Entry(c: PayloadClass, parent: Tag): TypeInfo
  {
    TypeInfo(true, Some(c), parent, Some(ClassName(c)))
  }

  /** The entry `register_base_type<T>` stores: a null constructor. */
  function BaseEntry(c: Tag, parent: Tag): TypeInfo
  {
    TypeInfo(true, None, parent, Some(ClassName(c)))
  }

  /** The entry `register_models` installs for a class it registers. */
  function ModelEntry(c: Tag): TypeInfo
    requires Position(c) < 23
  {
    if c == TagTrackablePacket || c == TagTransactionReply then BaseEntry(c, ClassParent(c))
    else Entry(c, ClassParent(c))
  }

  /** `TypeInfo::TYPES` once `register_models` has run on an empty registry. */
  function ModelTypes(): Types
  {
    map c | Position(c) < 23 :: ModelEntry(c)
  }

  /** The classes in the order `register_models` registers them. */
  const Order: seq<Tag> := [
      TagTrackablePacket,
      TagTransactionReply,
      TagPing,
      TagPingReply,
      TagDate,
      TagDateTime,
      TagShift,
      TagShiftWorker,
      TagS2CClientSync,
      TagC2SAuthorize,
      TagC2SDeleteShift,
      TagC2SGetShiftsByDay,
      TagC2SGetWorkers,
      TagC2SInsertShift,
      TagC2SInsertWorker,
      TagC2SDeleteWorker,
      TagS2CAuthorizeReply,
      TagS2CDeleteShiftReply,
      TagS2CGetShiftsReply,
      TagS2CGetWorkersReply,
      TagS2CInsertShiftReply,
      TagS2CInsertWorkerReply,
      TagS2CDeleteWorkerReply
    ]

  /** Where a class comes in `Order`; 23 for a class `register_models` never registers. */
  function Position(c: Tag): (k: nat)
    ensures k <= 23
  {
    if c == TagTrackablePacket then 0
    else if c == TagTransactionReply then 1
    else if c == TagPing then 2
    else if c == TagPingReply then 3
    else if c == TagDate then 4
    else if c == TagDateTime then 5
    else if c == TagShift then 6
    else if c == TagShiftWorker then 7
    else if c == TagS2CClientSync then 8
    else if c == TagC2SAuthorize then 9
    else if c == TagC2SDeleteShift then 10
    else if c == TagC2SGetShiftsByDay then 11
    else if c == TagC2SGetWorkers then 12
    else if c == TagC2SInsertShift then 13
    else if c == TagC2SInsertWorker then 14
    else if c == TagC2SDeleteWorker then 15
    else if c == TagS2CAuthorizeReply then 16
    else if c == TagS2CDeleteShiftReply then 17
    else if c == TagS2CGetShiftsReply then 18
    else if c == TagS2CGetWorkersReply then 19
    else if c == TagS2CInsertShiftReply then 20
    else if c == TagS2CInsertWorkerReply then 21
    else if c == TagS2CDeleteWorkerReply then 22
    else 23
  }

  /** `Position` numbers the classes of `Order`, each once. */
  lemma OrderPositions()
    ensures |Order| == 23
    ensures forall c :: Position(c) < 23 ==> Order[Position(c)] == c
  {
  }

  /** Each class is registered after its parent. */
  lemma ParentsFirst(c: Tag)
    requires Position(c) < 23
    ensures ClassParent(c) == TagUnknown || Position(ClassParent(c)) < Position(c)
  {
  }

  /** The table after the first k registrations of `register_models` on an empty registry. */
  ghost function Prefix(k: nat): Types
  {
    map c | Position(c) < k && Position(c) < 23 :: ModelEntry(c)
  }

  /** The table holds exactly the first k registrations of `register_models`. */
  ghost predicate Installed(types: Types, k: nat)
  {
    types == Prefix(k)
  }

  lemma NothingInstalled()
    ensures Installed(map[], 0)
  {
  }

  /** Distinct classes of `Order` have distinct positions. */
  lemma PositionInjective(a: Tag, b: Tag)
    requires Position(a) == Position(b) < 23
    ensures a == b
  {
    OrderPositions();
  }

  /** Installing the next registration: the class is new and takes position k. */
  lemma InstallNext(k: nat, c: Tag)
    requires Position(c) == k < 23
    ensures c !in Prefix(k) && Prefix(k)[c := ModelEntry(c)] == Prefix(k + 1)
  {
    var next := Prefix(k)[c := ModelEntry(c)];
    forall x ensures x in next <==> x in Prefix(k + 1) {
      if x != c && Position(x) == k {
        PositionInjective(x, c);
      }
    }
  }

  /** No class installed before c names c as its parent, and c is not its own parent. */
  lemma NoChildYet(k: nat, c: Tag)
    requires Position(c) == k < 23
    ensures ClassParent(c) != c && forall u :: u in Prefix(k) ==> Prefix(k)[u].parent != c
  {
    ParentsFirst(c);
    forall u | u in Prefix(k) ensures Prefix(k)[u].parent != c {
      ParentsFirst(u);
    }
  }

  lemma InstalledAll()
    ensures Prefix(23) == ModelTypes()
  {
  }

  /** Each position below 23 belongs to the class `Order` holds there. */
  lemma OrderIndices()
    ensures forall k :: 0 <= k < 23 ==> Position(Order[k]) == k
  {
  }

  /** The first k registrations install k distinct classes. */
  lemma {:induction false} PrefixSize(k: nat)
    requires k <= 23
    ensures |Prefix(k)| == k
  {
    if k > 0 {
      PrefixSize(k - 1);
      OrderIndices();
      InstallNext(k - 1, Order[k - 1]);
    }
  }

  /** A rank for the installed hierarchy: a class's place in `Order`. */
  ghost function ModelRank(): map<Tag, nat>
  {
    map c | Position(c) < 23 :: Position(c)
  }

  /** `register_models` leaves the parent chains acyclic: every parent is registered before its child. */
  lemma ModelTypesRanked()
    ensures Ranked(ModelTypes(), ModelRank())
  {
    PrefixSize(23);
    InstalledAll();
    forall t | t in ModelTypes()
      ensures ModelTypes()[t].parent in ModelTypes() ==> ModelRank()[ModelTypes()[t].parent] < ModelRank()[t]
    {
      ParentsFirst(t);
    }
  }

  /** All 23 registrations install `ModelTypes()`, ranked by `ModelRank()`. */
  lemma AllInstalled(types: Types)
    requires Installed(types, 23)
    ensures types == ModelTypes() && Ranked(types, ModelRank())
  {
    InstalledAll();
    ModelTypesRanked();
  }

  /** `register_base_type<T>(type, parent)` as `register_models` calls it. */
  method DeriveBase(reg: TypeRegistry, cls: Tag, parent: Tag, ghost empty: bool, ghost k: nat) returns (r: Result<()>)
    requires reg.Registered() && reg.NativesOwn()
    requires empty ==> Installed(reg.types, k) && k < 23 && Position(cls) == k && parent == ClassParent(cls)
                       && (cls == TagTrackablePacket || cls == TagTransactionReply)
    modifies reg
    ensures reg.Registered() && reg.NativesOwn()
    ensures old(reg.types) == reg.types || r.Ok?
    ensures cls in old(reg.types) ==> r == Fail(RuntimeError(AlreadyRegistered)) && reg.types == old(reg.types)
    ensures empty ==> r == Ok(()) && Installed(reg.types, k + 1)
  {
    if empty {
      InstallNext(k, cls);
      NoChildYet(k, cls);
    }
    r := reg.RegisterBaseType(cls, cls, parent);
  }

  /** `register_type<T>()` or `register_derived<T>(parent)` as `register_models` calls it. */
  method Derive(reg: TypeRegistry, cls: PayloadClass, parent: Tag, ghost empty: bool, ghost k: nat) returns (r: Result<()>)
    requires reg.Registered() && reg.NativesOwn()
    requires empty ==> Installed(reg.types, k) && k < 23 && Position(cls) == k && parent == ClassParent(cls)
    modifies reg
    ensures reg.Registered() && reg.NativesOwn()
    ensures empty ==> r == Ok(()) && Installed(reg.types, k + 1)
  {
    if empty {
      InstallNext(k, cls);
      NoChildYet(k, cls);
    }
    r := reg.RegisterDerived(cls, parent);
  }

  /** `register_derived<T, TParent>()` as `register_models` calls it. */
  method DeriveOf(reg: TypeRegistry, cls: PayloadClass, parentCls: Tag, ghost empty: bool, ghost k: nat) returns (r: Result<()>)
    requires reg.Registered() && reg.NativesOwn()
    requires empty ==> Installed(reg.types, k) && k < 23 && Position(cls) == k && parentCls == ClassParent(cls)
    modifies reg
    ensures reg.Registered() && reg.NativesOwn()
    ensures empty ==> r == Ok(()) && Installed(reg.types, k + 1)
  {
    if empty {
      InstallNext(k, cls);
      NoChildYet(k, cls);
    }
    r := reg.RegisterDerivedOf(cls, parentCls);
  }

  /** Registrations 0 to 3 of `register_models`: the two base packet types, then `Ping` and `PingReply`. */
  method RegisterRoots(reg: TypeRegistry, ghost empty: bool) returns (r: Result<()>)
    requires reg.Registered() && reg.NativesOwn()
    requires empty ==> Installed(reg.types, 0)
    modifies reg
    ensures reg.Registered() && reg.NativesOwn()
    ensures empty ==> r == Ok(()) && Installed(reg.types, 4)
    ensures TagTrackablePacket in old(reg.types)
            ==> r == Fail(RuntimeError(AlreadyRegistered)) && reg.types == old(reg.types)
  {
    r := DeriveBase(reg, TagTrackablePacket, TagUnknown, empty, 0);
    if r.Fail? { return; }
    r := DeriveBase(reg, TagTransactionReply, TagTrackablePacket, empty, 1);
    if r.Fail? { return; }
    r := Derive(reg, TagPing, TagUnknown, empty, 2);
    if r.Fail? { return; }
    r := Derive(reg, TagPingReply, TagUnknown, empty, 3);
  }

  /** Registrations 4 to 8 of `register_models`: `Date`, `DateTime` under `Date`, `Shift`, `ShiftWorker` and `S2C_ClientSync`. */
  method RegisterValues(reg: TypeRegistry, ghost empty: bool) returns (r: Result<()>)
    requires reg.Registered() && reg.NativesOwn()
    requires empty ==> Installed(reg.types, 4)
    modifies reg
    ensures reg.Registered() && reg.NativesOwn()
    ensures empty ==> r == Ok(()) && Installed(reg.types, 9)
  {
    r := Derive(reg, TagDate, TagUnknown, empty, 4);
    if r.Fail? { return; }
    r := DeriveOf(reg, TagDateTime, TagDate, empty, 5);
    if r.Fail? { return; }
    r := Derive(reg, TagShift, TagUnknown, empty, 6);
    if r.Fail? { return; }
    r := Derive(reg, TagShiftWorker, TagUnknown, empty, 7);
    if r.Fail? { return; }
    r := Derive(reg, TagS2CClientSync, TagUnknown, empty, 8);
  }

  /** Registrations 9 to 12 of `register_models`: the first four client-to-server packets, each under `TrackablePacket`. */
  method RegisterRequests(reg: TypeRegistry, ghost empty: bool) returns (r: Result<()>)
    requires reg.Registered() && reg.NativesOwn()
    requires empty ==> Installed(reg.types, 9)
    modifies reg
    ensures reg.Registered() && reg.NativesOwn()
    ensures empty ==> r == Ok(()) && Installed(reg.types, 13)
  {
    r := Derive(reg, TagC2SAuthorize, TagTrackablePacket, empty, 9);
    if r.Fail? { return; }
    r := Derive(reg, TagC2SDeleteShift, TagTrackablePacket, empty, 10);
    if r.Fail? { return; }
    r := Derive(reg, TagC2SGetShiftsByDay, TagTrackablePacket, empty, 11);
    if r.Fail? { return; }
    r := Derive(reg, TagC2SGetWorkers, TagTrackablePacket, empty, 12);
  }

  /** Registrations 13 to 15 of `register_models`: the remaining client-to-server packets, each under `TrackablePacket`. */
  method RegisterEdits(reg: TypeRegistry, ghost empty: bool) returns (r: Result<()>)
    requires reg.Registered() && reg.NativesOwn()
    requires empty ==> Installed(reg.types, 13)
    modifies reg
    ensures reg.Registered() && reg.NativesOwn()
    ensures empty ==> r == Ok(()) && Installed(reg.types, 16)
  {
    r := Derive(reg, TagC2SInsertShift, TagTrackablePacket, empty, 13);
    if r.Fail? { return; }
    r := Derive(reg, TagC2SInsertWorker, TagTrackablePacket, empty, 14);
    if r.Fail? { return; }
    r := Derive(reg, TagC2SDeleteWorker, TagTrackablePacket, empty, 15);
  }

  /** Registrations 16 to 19 of `register_models`: the first four server-to-client replies, each under `TransactionReply`. */
  method RegisterReplies(reg: TypeRegistry, ghost empty: bool) returns (r: Result<()>)
    requires reg.Registered() && reg.NativesOwn()
    requires empty ==> Installed(reg.types, 16)
    modifies reg
    ensures reg.Registered() && reg.NativesOwn()
    ensures empty ==> r == Ok(()) && Installed(reg.types, 20)
  {
    r := Derive(reg, TagS2CAuthorizeReply, TagTransactionReply, empty, 16);
    if r.Fail? { return; }
    r := Derive(reg, TagS2CDeleteShiftReply, TagTransactionReply, empty, 17);
    if r.Fail? { return; }
    r := Derive(reg, TagS2CGetShiftsReply, TagTransactionReply, empty, 18);
    if r.Fail? { return; }
    r := Derive(reg, TagS2CGetWorkersReply, TagTransactionReply, empty, 19);
  }

  /** Registrations 20 to 22 of `register_models`: the remaining server-to-client replies, each under `TransactionReply`. */
  method RegisterResults(reg: TypeRegistry, ghost empty: bool) returns (r: Result<()>)
    requires reg.Registered() && reg.NativesOwn()
    requires empty ==> Installed(reg.types, 20)
    modifies reg
    ensures reg.Registered() && reg.NativesOwn()
    ensures empty ==> r == Ok(()) && Installed(reg.types, 23)
  {
    r := Derive(reg, TagS2CInsertShiftReply, TagTransactionReply, empty, 20);
    if r.Fail? { return; }
    r := Derive(reg, TagS2CInsertWorkerReply, TagTransactionReply, empty, 21);
    if r.Fail? { return; }
    r := Derive(reg, TagS2CDeleteWorkerReply, TagTransactionReply, empty, 22);
  }

  /**
   * `register_models`: two base types, then each class with its parent.  On
   * an empty registry it installs `ModelTypes()`; run a second time it throws
   * at its first call and changes nothing.
   */
  method RegisterModels(reg: TypeRegistry) returns (r: Result<()>)
    requires reg.Registered() && reg.NativesOwn()
    modifies reg
    ensures reg.Registered() && reg.NativesOwn()
    ensures old(reg.types) == map[] ==> r == Ok(()) && reg.types == ModelTypes() && reg.Valid()
    ensures TagTrackablePacket in old(reg.types)
            ==> r == Fail(RuntimeError(AlreadyRegistered)) && reg.types == old(reg.types)
  {
    ghost var empty := reg.types == map[];
    NothingInstalled();
    r := RegisterRoots(reg, empty);
    if r.Fail? { return; }
    r := RegisterValues(reg, empty);
    if r.Fail? { return; }
    r := RegisterRequests(reg, empty);
    if r.Fail? { return; }
    r := RegisterEdits(reg, empty);
    if r.Fail? { return; }
    r := RegisterReplies(reg, empty);
    if r.Fail? { return; }
    r := RegisterResults(reg, empty);
    if empty {
      AllInstalled(reg.types);
      reg.rank := ModelRank();
    }
  }

  // ------------------------------------------------ the installed hierarchy

  /** Which classes `register_models` registers, and how. */
  lemma ModelEntries(c: Tag)
    ensures c in ModelTypes() <==> Position(c) < 23
    ensures c in ModelTypes() <==> TagPing <= c <= TagS2CClientSync && c != TagRestaurantManager
    ensures c in ModelTypes() ==> ModelTypes()[c].parent == ClassParent(c) && ModelTypes()[c].registered
    ensures c in ModelTypes() ==> (ModelTypes()[c].ctor.None? <==> c == TagTrackablePacket || c == TagTransactionReply)
    ensures c in ModelTypes() && ModelTypes()[c].ctor.Some? ==> ModelTypes()[c].ctor.value == c
    ensures c in ModelTypes() ==> ModelTypes()[c].name == Some(ClassName(c))
  {
  }

  /** Every parent `register_models` names is registered too, except `Unknown`, which is not. */
  lemma ModelClosed()
    ensures Closed(ModelTypes()) && TagUnknown !in ModelTypes()
    ensures |ModelTypes()| == 23
  {
    PrefixSize(23);
    InstalledAll();
    forall t | t in ModelTypes() ensures ModelTypes()[t].parent == TagUnknown || ModelTypes()[t].parent in ModelTypes() {
      ModelEntries(t);
      ModelEntries(ClassParent(t));
    }
  }

  /** The ancestors of a registered class: its parent, grandparent and great-grandparent (which reach `Unknown`). */
  function Ancestors(t: Tag): set<Tag>
  {
    {ClassParent(t), ClassParent(ClassParent(t)), ClassParent(ClassParent(ClassParent(t)))}
  }

  /** Following parents upward from a registered class meets exactly its ancestors. */
  lemma {:induction false} WalkModel(b: Tag, t: Tag, f: nat)
    requires f >= 3
    ensures Walk(ModelTypes(), b, t, f) <==> t in ModelTypes() && b in Ancestors(t)
  {
    var m := ModelTypes();
    ModelEntries(t);
    ModelEntries(TagUnknown);
    if t in m {
      var p1 := ClassParent(t);
      ModelEntries(p1);
      var p2 := ClassParent(p1);
      ModelEntries(p2);
      var p3 := ClassParent(p2);
      ModelEntries(p3);
      assert p3 == TagUnknown;
      assert !Walk(m, b, TagUnknown, f - 3);
      assert Walk(m, b, p2, f - 2) <==> p2 in m && b == p3;
      assert Walk(m, b, p1, f - 1) <==> p1 in m && (b == p2 || (p2 in m && b == p3));
    }
  }

  /** `is_assignable` over the installed table: a class is assignable to itself and to its ancestors, and to nothing else. */
  lemma ModelAssignable(b: Tag, t: Tag)
    ensures Assignable(ModelTypes(), b, t) <==> b == t || (t in ModelTypes() && b in Ancestors(t))
  {
    ModelClosed();
    WalkModel(b, t, |ModelTypes()|);
  }

  /** `new_instance(type)` after `register_models`: exactly the concrete classes can be built, each as itself. */
  lemma ModelNewAnyInstance(t: Tag)
    ensures NewAnyInstance(ModelTypes(), t).Ok? <==> Constructible(t)
    ensures NewAnyInstance(ModelTypes(), t).Ok? ==> NewAnyInstance(ModelTypes(), t).value == t
  {
    ModelEntries(t);
  }

  /** `RestaurantManager` has a tag but is never registered, so building one off a stream fails. */
  lemma ManagerNotInstantiable()
    ensures NewAnyInstance(ModelTypes(), TagRestaurantManager)
         == Fail(RuntimeError("unregistered target type #5"))
  {
    ModelEntries(TagRestaurantManager);
    assert Digit(5) == '5';
    assert TypeName(ModelTypes(), TagRestaurantManager) == "#5";
    assert "unregistered target type " + "#5" == "unregistered target type #5";
  }

  /** `new_instance<Date>` accepts a `Date` or a `DateTime` tag, and no other. */
  lemma NewDateInstance(t: Tag)
    ensures NewInstance(ModelTypes(), TagDate, t).Ok? <==> t == TagDate || t == TagDateTime
    ensures NewInstance(ModelTypes(), TagDate, t).Ok? ==> NewInstance(ModelTypes(), TagDate, t).value == t
  {
    ModelEntries(TagDate);
    ModelEntries(t);
    ModelAssignable(TagDate, t);
  }

  /** `new_instance<C>` for a class C without subclasses accepts C's own tag and no other. */
  lemma NewLeafInstance(c: Tag, t: Tag)
    requires c == TagShift || c == TagShiftWorker
    ensures NewInstance(ModelTypes(), c, t).Ok? <==> t == c
    ensures NewInstance(ModelTypes(), c, t).Ok? ==> NewInstance(ModelTypes(), c, t).value == c
  {
    ModelEntries(c);
    ModelEntries(t);
    ModelAssignable(c, t);
  }
}
