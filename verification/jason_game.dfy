/** The concrete game: a catalog of one system with four EventWriter
    arguments, and that system's function, which sends four draw events. */
module JasonGame {
  import opened Types
  import opened Callbacks
  import opened Catalog
  import opened Bridge

  /** Native string pointers to the full type names of the four draw events
      (allocated by the runtime at load; opaque here). */
  datatype EventNames = EventNames(drawCircle: int, drawText: int, drawLine: int, drawRectangle: int)

  /** The four encoded payloads, built once at load by an external codec. */
  datatype Payloads = Payloads(circle: seq<Byte>, text: seq<Byte>, line: seq<Byte>, rectangle: seq<Byte>)

  /** The payloads in the order `Fn` sends them. */
  function PayloadOrder(p: Payloads): (s: seq<seq<Byte>>)
    ensures |s| == 4
  {
    [p.circle, p.text, p.line, p.rectangle]
  }

  /** `JasonGame.SystemDefinitions`, given the name pointers and the native
      address of `Fn`. */
  function SystemDefinitions(names: EventNames, fn: Ptr): (g: Game)
    ensures WellFormed(g)
    ensures SystemLength(g) == 1
    ensures SystemIsOnce(g, 0) == Ok(false)
    ensures SystemFunction(g, 0) == Ok(fn)
    ensures SystemArgumentLength(g, 0) == Ok(4)
    ensures forall j: nat :: j < 4 ==> SystemArgumentType(g, 0, j) == Ok(EventWriter)
    ensures SystemArgumentEvent(g, 0, 0) == Ok(names.drawCircle)
    ensures SystemArgumentEvent(g, 0, 1) == Ok(names.drawText)
    ensures SystemArgumentEvent(g, 0, 2) == Ok(names.drawLine)
    ensures SystemArgumentEvent(g, 0, 3) == Ok(names.drawRectangle)
  {
    Game([SystemDefinition(
      false,
      [EventWriter, EventWriter, EventWriter, EventWriter],
      [[names.drawCircle], [names.drawText], [names.drawLine], [names.drawRectangle]],
      fn)])
  }

  /** What running a system did: the host calls made, in order, and either
      the system's return value or the fault that stopped it. Calls made
      before a fault have already reached the host. */
  datatype Invocation = Invocation(calls: seq<HostCall>, result: Result<nat>)

  /** Sends `payloads[k]` through argument `k` for k = from, from+1, ...,
      stopping at the first fault. */
  function SendFrom(t: CallbackTable, mem: Memory, sysPtr: Ptr, payloads: seq<seq<Byte>>, from: nat): (r: Invocation)
    requires from <= |payloads|
    ensures from + |r.calls| <= |payloads|
    ensures forall k :: 0 <= k < |r.calls| ==>
              SendEvent(t, mem, sysPtr, from + k, payloads[from + k]) == Ok(r.calls[k])
    ensures forall j {:trigger ArgSlotAddress(sysPtr, j)} :: from <= j < from + |r.calls| ==>
              Slot(t, EventSendFn).Some? && ArgSlotAddress(sysPtr, j) in mem &&
              r.calls[j - from] == HostCall(EventSendFn, Slot(t, EventSendFn).value,
                                            mem[ArgSlotAddress(sysPtr, j)], payloads[j], |payloads[j]|)
    ensures r.result.Ok? ==> from + |r.calls| == |payloads| && r.result.value == 0
    ensures r.result.Err? ==>
              from + |r.calls| < |payloads|
              && SendEvent(t, mem, sysPtr, from + |r.calls|, payloads[from + |r.calls|]) == Err(r.result.error)
    decreases |payloads| - from
  {
    if from == |payloads| then Invocation([], Ok(0))
    else
      match SendEvent(t, mem, sysPtr, from, payloads[from])
      case Err(e) => Invocation([], Err(e))
      case Ok(call) =>
        var rest := SendFrom(t, mem, sysPtr, payloads, from + 1);
        var r := Invocation([call] + rest.calls, rest.result);
        assert r.calls[0] == call;
        assert forall k :: 1 <= k < |r.calls| ==> r.calls[k] == rest.calls[k - 1];
        r
  }

  /** The system function `Fn(ptr)`: four `SendEvent` calls at offsets
      0, 1, 2, 3 with the circle, text, line and rectangle payloads, then
      return 0. */
  function Fn(t: CallbackTable, mem: Memory, sysPtr: Ptr, p: Payloads): (r: Invocation)
    ensures |r.calls| <= 4
    ensures forall k :: 0 <= k < |r.calls| ==>
              Slot(t, EventSendFn).Some? && ArgSlotAddress(sysPtr, k) in mem &&
              r.calls[k] == HostCall(EventSendFn, Slot(t, EventSendFn).value,
                                     mem[ArgSlotAddress(sysPtr, k)], PayloadOrder(p)[k], |PayloadOrder(p)[k]|)
    ensures r.result.Ok? <==>
              Slot(t, EventSendFn).Some? && forall k :: 0 <= k < 4 ==> ArgSlotAddress(sysPtr, k) in mem
    ensures r.result.Ok? ==> r.result.value == 0 && |r.calls| == 4
    ensures Slot(t, EventSendFn).None? ==> r.calls == []
    ensures r.result.Err? ==>
              |r.calls| < 4
              && SendEvent(t, mem, sysPtr, |r.calls|, PayloadOrder(p)[|r.calls|]) == Err(r.result.error)
  {
    var payloads := PayloadOrder(p);
    var r := SendFrom(t, mem, sysPtr, payloads, 0);
    r
  }

  /** `SendEvent` accepts an offset beyond the system's four arguments: it
      reads whatever word lies there and forwards it as a handle. */
  lemma SendEventIgnoresArity(t: CallbackTable, mem: Memory, sysPtr: Ptr, bytes: seq<Byte>)
    requires Slot(t, EventSendFn).Some?
    requires ArgSlotAddress(sysPtr, 4) in mem
    ensures SystemArgumentLength(SystemDefinitions(EventNames(1, 2, 3, 4), 5), 0) == Ok(4)
    ensures SendEvent(t, mem, sysPtr, 4, bytes).Ok?
  {
  }

  /** With the EventSend delegate set and a handle in each of the four
      argument slots, `Fn` makes exactly four EventSend calls, argument k
      carrying handle k and payload k, and returns 0. */
  lemma FnSendsFourEvents(t: CallbackTable, mem: Memory, sysPtr: Ptr, handles: seq<int>, p: Payloads)
    requires Slot(t, EventSendFn).Some?
    requires |handles| == 4 && sysPtr + 4 * WORD_BYTES <= ADDRESS_SPACE
    requires forall k :: 0 <= k < 4 ==> sysPtr + k * WORD_BYTES in mem && mem[sysPtr + k * WORD_BYTES] == handles[k]
    ensures Fn(t, mem, sysPtr, p).result == Ok(0)
    ensures |Fn(t, mem, sysPtr, p).calls| == 4
    ensures forall k :: 0 <= k < 4 ==>
              Fn(t, mem, sysPtr, p).calls[k]
              == HostCall(EventSendFn, Slot(t, EventSendFn).value, handles[k], PayloadOrder(p)[k], |PayloadOrder(p)[k]|)
  {
  }
}
