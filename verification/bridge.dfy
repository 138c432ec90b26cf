/** The invocation bridge: locating an argument's handle in the pointer
    array the host passes to a system, and forwarding an event payload to
    the host's EventSend delegate. */
module Bridge {
  import opened Types
  import opened Callbacks

  /** Host memory as the module sees it: machine words by address. An
      address outside the map is not mapped. */
  type Memory = map<nat, int>

  /** One call the module makes into the host: which delegate, through which
      function pointer, with the handle, the payload and its length. */
  datatype HostCall = HostCall(kind: CallbackKind, target: Ptr, handle: int, data: seq<Byte>, size: int)

  /** `sysPtr + offset * 8` in unchecked 64-bit pointer arithmetic. */
  function ArgSlotAddress(sysPtr: Ptr, offset: int): (a: nat)
    ensures a < ADDRESS_SPACE
    ensures sysPtr < ADDRESS_SPACE ==> (a - sysPtr - offset * WORD_BYTES) % ADDRESS_SPACE == 0
  {
    (sysPtr + offset * WORD_BYTES) % ADDRESS_SPACE
  }

  /** Without wrap-around the slot of argument `k` is `k` words past the
      array start, and different arguments live at different addresses. */
  lemma ArgSlotsAtStride(sysPtr: Ptr, n: nat)
    requires sysPtr + n * WORD_BYTES <= ADDRESS_SPACE
    ensures forall k :: 0 <= k < n ==> ArgSlotAddress(sysPtr, k) == sysPtr + k * WORD_BYTES
    ensures forall i, j :: 0 <= i < j < n ==> ArgSlotAddress(sysPtr, i) < ArgSlotAddress(sysPtr, j)
  {
  }

  /** Two argument slots collide only if their offsets differ by a multiple
      of 2^61 words. */
  lemma ArgSlotsDistinct(sysPtr: Ptr, i: int, j: int)
    requires 0 < (j - i) * WORD_BYTES < ADDRESS_SPACE
    ensures ArgSlotAddress(sysPtr, i) != ArgSlotAddress(sysPtr, j)
  {
  }

  /** `Marshal.ReadIntPtr`: the word at `address`, or an access violation. */
  function ReadWord(mem: Memory, address: nat): (r: Result<int>)
    ensures r.Ok? <==> address in mem
    ensures r.Ok? ==> r.value == mem[address]
    ensures r.Err? ==> r.error == AccessViolation(address)
  {
    if address in mem then Ok(mem[address]) else Err(AccessViolation(address))
  }

  /** `SendEvent(sysPtr, offset, bytes)`: reads the handle of argument
      `offset` and makes exactly one call to the EventSend delegate with
      the handle, the bytes and their count. The memory read happens first;
      an unset delegate then faults; `offset` is never compared with the
      system's argument count. */
  function SendEvent(t: CallbackTable, mem: Memory, sysPtr: Ptr, offset: int, bytes: seq<Byte>): (r: Result<HostCall>)
    ensures r.Ok? <==> ArgSlotAddress(sysPtr, offset) in mem && Slot(t, EventSendFn).Some?
    ensures ArgSlotAddress(sysPtr, offset) !in mem ==>
              r == Err(AccessViolation(ArgSlotAddress(sysPtr, offset)))
    ensures ArgSlotAddress(sysPtr, offset) in mem && Slot(t, EventSendFn).None? ==>
              r == Err(NullCallback(EventSendFn))
    ensures r.Ok? ==>
              r.value == HostCall(EventSendFn, Slot(t, EventSendFn).value,
                                  mem[ArgSlotAddress(sysPtr, offset)], bytes, |bytes|)
  {
    match ReadWord(mem, ArgSlotAddress(sysPtr, offset))
    case Err(e) => Err(e)
    case Ok(argPtr) =>
      match Slot(t, EventSendFn)
      case None => Err(NullCallback(EventSendFn))
      case Some(target) => Ok(HostCall(EventSendFn, target, argPtr, bytes, |bytes|))
  }
}
