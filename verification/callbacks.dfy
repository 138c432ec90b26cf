/** The callback table: twelve nullable delegate fields, one per callback
    kind, each either unset or holding the host's function pointer. */
module Callbacks {
  import opened Types

  datatype CallbackTable = CallbackTable(
    spawn: Option<Ptr>,
    despawn: Option<Ptr>,
    eventCount: Option<Ptr>,
    eventGet: Option<Ptr>,
    eventSend: Option<Ptr>,
    queryLen: Option<Ptr>,
    queryGet: Option<Ptr>,
    queryGetMut: Option<Ptr>,
    queryGetFirst: Option<Ptr>,
    queryGetFirstMut: Option<Ptr>,
    queryForEach: Option<Ptr>,
    queryParForEach: Option<Ptr>)

  /** The field that holds the delegate for `kind`. */
  function Slot(t: CallbackTable, kind: CallbackKind): Option<Ptr> {
    match kind
    case SpawnFn => t.spawn
    case DespawnFn => t.despawn
    case EventCountFn => t.eventCount
    case EventGetFn => t.eventGet
    case EventSendFn => t.eventSend
    case QueryLenFn => t.queryLen
    case QueryGetFn => t.queryGet
    case QueryGetMutFn => t.queryGetMut
    case QueryGetFirstFn => t.queryGetFirst
    case QueryGetFirstMutFn => t.queryGetFirstMut
    case QueryForEachFn => t.queryForEach
    case QueryParForEachFn => t.queryParForEach
  }

  /** The table at module load: every field null. */
  function Empty(): (t: CallbackTable)
    ensures forall k :: Slot(t, k) == None
  {
    CallbackTable(None, None, None, None, None, None, None, None, None, None, None, None)
  }

  /** Every world operation has a delegate. */
  predicate Ready(t: CallbackTable) {
    forall k :: Slot(t, k).Some?
  }

  /** One arm of the `SetCallbackFunc` switch: stores the pointer in the
      field for `kind` and in no other. */
  function Set(t: CallbackTable, kind: CallbackKind, ptr: Ptr): (t': CallbackTable)
    ensures Slot(t', kind) == Some(ptr)
    ensures forall k :: k != kind ==> Slot(t', k) == Slot(t, k)
  {
    match kind
    case SpawnFn => t.(spawn := Some(ptr))
    case DespawnFn => t.(despawn := Some(ptr))
    case EventCountFn => t.(eventCount := Some(ptr))
    case EventGetFn => t.(eventGet := Some(ptr))
    case EventSendFn => t.(eventSend := Some(ptr))
    case QueryLenFn => t.(queryLen := Some(ptr))
    case QueryGetFn => t.(queryGet := Some(ptr))
    case QueryGetMutFn => t.(queryGetMut := Some(ptr))
    case QueryGetFirstFn => t.(queryGetFirst := Some(ptr))
    case QueryGetFirstMutFn => t.(queryGetFirstMut := Some(ptr))
    case QueryForEachFn => t.(queryForEach := Some(ptr))
    case QueryParForEachFn => t.(queryParForEach := Some(ptr))
  }

  /** Two tables that agree on every slot are the same table. */
  lemma SlotsDetermineTable(a: CallbackTable, b: CallbackTable)
    requires forall k :: Slot(a, k) == Slot(b, k)
    ensures a == b
  {
    assert Slot(a, SpawnFn) == Slot(b, SpawnFn);
    assert Slot(a, DespawnFn) == Slot(b, DespawnFn);
    assert Slot(a, EventCountFn) == Slot(b, EventCountFn);
    assert Slot(a, EventGetFn) == Slot(b, EventGetFn);
    assert Slot(a, EventSendFn) == Slot(b, EventSendFn);
    assert Slot(a, QueryLenFn) == Slot(b, QueryLenFn);
    assert Slot(a, QueryGetFn) == Slot(b, QueryGetFn);
    assert Slot(a, QueryGetMutFn) == Slot(b, QueryGetMutFn);
    assert Slot(a, QueryGetFirstFn) == Slot(b, QueryGetFirstFn);
    assert Slot(a, QueryGetFirstMutFn) == Slot(b, QueryGetFirstMutFn);
    assert Slot(a, QueryForEachFn) == Slot(b, QueryForEachFn);
    assert Slot(a, QueryParForEachFn) == Slot(b, QueryParForEachFn);
  }

  /** Registering a kind again overwrites it: only the last pointer counts. */
  lemma SetOverwrites(t: CallbackTable, kind: CallbackKind, first: Ptr, second: Ptr)
    ensures Set(Set(t, kind, first), kind, second) == Set(t, kind, second)
  {
  }

  /** Registrations of different kinds do not interfere, so the host may
      register them in any order. */
  lemma SetCommutes(t: CallbackTable, k1: CallbackKind, p1: Ptr, k2: CallbackKind, p2: Ptr)
    requires k1 != k2
    ensures Set(Set(t, k1, p1), k2, p2) == Set(Set(t, k2, p2), k1, p1)
  {
  }
}
