/** Shared vocabulary of the host/module interop protocol: the closed enums
    that cross the boundary as integer codes, opaque pointers, and the
    failure-carrying result types that stand for the module's exceptions. */
module Types {

  /** A payload byte, as in the `byte[]` buffers forwarded to the host. */
  type Byte = bv8

  /** An opaque native address (function pointer, string pointer, argument
      array). Zero is the null pointer. */
  type Ptr = nat

  /** A native pointer is one machine word: 8 bytes, addresses modulo 2^64. */
  const WORD_BYTES: nat := 8
  const ADDRESS_SPACE: nat := 0x1_0000_0000_0000_0000

  datatype Option<+T> = None | Some(value: T)

  /** The exceptions the module can raise, one constructor per cause. */
  datatype Error =
    | NullArgument                     // ArgumentNullException: null string or null function pointer
    | DuplicateKey(key: string)        // ArgumentException from Dictionary.Add
    | UnknownCallbackType(code: int)   // ArgumentOutOfRangeException from the callback switch
    | IndexOutOfRange                  // IndexOutOfRangeException from an array read
    | AccessViolation(address: nat)    // a read of host memory that is not mapped
    | NullCallback(kind: CallbackKind) // NullReferenceException: invoking a slot never set

  datatype Result<+T> = Ok(value: T) | Err(error: Error)

  /** Result of an operation whose only effect is on the module state. */
  datatype Outcome = Pass | Fail(error: Error)

  /** The twelve world operations the host hands over as function pointers,
      in declaration order (their integer codes are 0..11). */
  datatype CallbackKind =
    | SpawnFn | DespawnFn | EventCountFn | EventGetFn | EventSendFn
    | QueryLenFn | QueryGetFn | QueryGetMutFn | QueryGetFirstFn
    | QueryGetFirstMutFn | QueryForEachFn | QueryParForEachFn

  const CALLBACK_KINDS: nat := 12

  /** The integer value of a callback kind as the host passes it. */
  function CallbackCode(k: CallbackKind): (c: nat)
    ensures c < CALLBACK_KINDS
  {
    match k
    case SpawnFn => 0
    case DespawnFn => 1
    case EventCountFn => 2
    case EventGetFn => 3
    case EventSendFn => 4
    case QueryLenFn => 5
    case QueryGetFn => 6
    case QueryGetMutFn => 7
    case QueryGetFirstFn => 8
    case QueryGetFirstMutFn => 9
    case QueryForEachFn => 10
    case QueryParForEachFn => 11
  }

  /** Decodes a raw callback code; any integer outside the enumeration is
      not a kind. */
  function CallbackKindOfCode(code: int): (r: Option<CallbackKind>)
    ensures r.Some? <==> 0 <= code < CALLBACK_KINDS
    ensures r.Some? ==> CallbackCode(r.value) == code
  {
    if code == 0 then Some(SpawnFn)
    else if code == 1 then Some(DespawnFn)
    else if code == 2 then Some(EventCountFn)
    else if code == 3 then Some(EventGetFn)
    else if code == 4 then Some(EventSendFn)
    else if code == 5 then Some(QueryLenFn)
    else if code == 6 then Some(QueryGetFn)
    else if code == 7 then Some(QueryGetMutFn)
    else if code == 8 then Some(QueryGetFirstFn)
    else if code == 9 then Some(QueryGetFirstMutFn)
    else if code == 10 then Some(QueryForEachFn)
    else if code == 11 then Some(QueryParForEachFn)
    else None
  }

  /** Encoding then decoding a kind gives it back, so distinct kinds have
      distinct codes. */
  lemma CallbackCodeRoundTrip(k: CallbackKind)
    ensures CallbackKindOfCode(CallbackCode(k)) == Some(k)
  {
  }

  /** A system argument's access mode (codes 0..4). */
  datatype ArgType = DataAccessMut | DataAccessRef | EventReader | EventWriter | Query

  function ArgTypeCode(a: ArgType): (c: nat)
    ensures c < 5
  {
    match a
    case DataAccessMut => 0
    case DataAccessRef => 1
    case EventReader => 2
    case EventWriter => 3
    case Query => 4
  }

  function ArgTypeOfCode(code: int): (r: Option<ArgType>)
    ensures r.Some? <==> 0 <= code < 5
    ensures r.Some? ==> ArgTypeCode(r.value) == code
  {
    if code == 0 then Some(DataAccessMut)
    else if code == 1 then Some(DataAccessRef)
    else if code == 2 then Some(EventReader)
    else if code == 3 then Some(EventWriter)
    else if code == 4 then Some(Query)
    else None
  }

  lemma ArgTypeCodeRoundTrip(a: ArgType)
    ensures ArgTypeOfCode(ArgTypeCode(a)) == Some(a)
  {
  }

  /** Whether a component slot holds per-entity data or a singleton
      (codes 0 and 1). */
  datatype ComponentKind = Component | Resource

  function ComponentKindCode(k: ComponentKind): (c: nat)
    ensures c < 2
    ensures (c == 0) <==> k == Component
  {
    match k
    case Component => 0
    case Resource => 1
  }
}
