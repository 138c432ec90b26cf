# Fiasco ECS module interop, modelled in Dafny

Fiasco is a game module. A native engine host loads it and drives an
Entity-Component-System world through it. This project models the module
side of that host/module protocol in Dafny and proves its properties:

- **Version packing** (`version.dfy`). `MakeApiVersion` packs major, minor and
  patch into one 32-bit word as `(major<<25)|(minor<<15)|patch`, and
  `void_target_version` reports 0.0.3. The model uses `bv32`, so bits shifted
  out of the word are dropped exactly as C# `uint` shifts drop them.
- **Component-id registry** (`registry.dfy`, `EcsModule.SetComponentId`). It
  maps a string to a numeric id. A null string is rejected before anything
  changes. A key that is already present is refused (`Dictionary.Add` throws)
  and the registry is left intact.
- **System catalog and introspection** (`catalog.dfy`). `SystemDefinition` and
  `IGame` are immutable datatypes. Each entry point indexes the arrays as the
  C# does, and a bad index is the `IndexOutOfRange` error. The entry points
  are pure functions of the catalog, so asking twice gives the same answer.
  The catalog is the `game` field of the module state, and no registration
  call changes it.
- **Callback table** (`callbacks.dfy`, `EcsModule.SetCallbackFunc`). It has
  twelve nullable delegate fields. The switch rejects an unknown code with
  `UnknownCallbackType`. It sets exactly one slot, and a later registration
  of the same kind overwrites it.
- **Invocation bridge** (`bridge.dfy`). `SendEvent` reads the argument handle
  at `sysPtr + offset*8`, using unchecked 64-bit arithmetic over a host memory
  map. It then produces the single call it makes into the host,
  `(EventSend, handle, bytes, |bytes|)`.
- **The demo game** (`jason_game.dfy`). It has one system with four
  EventWriter arguments. Its `Fn` sends four events at offsets 0..3 in order
  and returns 0.

Each exception the module can throw is modelled as an error value
(`Types.Error`). These are not recoverable errors. Every entry point is
called from native code, and so is the system function `Fn`. An exception
that escapes one of them terminates the host process, and no error value
reaches the host. A `Fail`/`Err` result therefore stands for "the process
dies here, with this cause". A registration call returns a `Step`: the state
plus `Pass` or `Fail(error)`. On `Fail` the state records the module's
fields at the point of the throw, and the throw happens before any field is
written. Pointers, string pointers and handles are opaque naturals. Host calls are
modelled as `HostCall` records. Calls made before a fault are kept in the
`Invocation`.

## Behaviour a host might not expect

- `system_arg_event` does not check that the argument is an event. It
  returns the first id of whatever list is stored
  (`Catalog.ArgumentEventIgnoresType`). It checks the index against `ArgIds`,
  not `ArgTypes`, and an empty list is an index fault.
- `SendEvent` does not compare `offset` with the system's argument count
  (`JasonGame.SendEventIgnoresArity`).
- An unset EventSend slot is a null dereference, modelled as
  `NullCallback(EventSendFn)`. It happens after the memory read.
- Slots are not write-once. A later `set_callback_fn` of the same kind
  overwrites the earlier pointer (`Callbacks.SetOverwrites`,
  `EcsModule.SetCallbackFuncOverwrites`).
- The `SystemDefinition` constructor does not require `|ArgTypes| ==
  |ArgIds|`. That condition is the predicate `Catalog.WellFormed`, and the
  demo catalog satisfies it. A descriptor that breaks it reports an argument
  whose event id faults (`Catalog.MismatchedDescriptorFaultsOnEvent`).
- `set_callback_fn` with a null function pointer raises
  `ArgumentNullException`, because `Marshal.GetDelegateForFunctionPointer`
  refuses the zero pointer. The kind is decoded first, so an unknown code
  with a null pointer reports the unknown code.

## Model

| member | source | states |
|---|---|---|
| Types.CallbackCode | Fiasco/Engine.cs:8-21 | every callback kind has a code in 0..11 |
| Types.CallbackKindOfCode | Fiasco/Engine.cs:8-21 | a raw code names a kind exactly when it is in 0..11, and the kind named encodes back to that code |
| Types.CallbackCodeRoundTrip | Fiasco/Engine.cs:8-21 | decoding a kind's code gives the kind back, so the twelve codes are distinct |
| Types.ArgTypeOfCode | Fiasco/Engine.cs:41-47 | a raw code is an ArgType exactly when it is in 0..4, and it encodes back to the same code |
| Types.ArgTypeCodeRoundTrip | Fiasco/Engine.cs:41-47 | decoding an ArgType's code gives it back |
| Types.ComponentKindCode | Fiasco/Engine.cs:36-39 | Component is code 0 and Resource is the other code, 1 |
| Version.MakeApiVersion | Fiasco/Engine.cs:144 | when major < 2^7, minor < 2^10 and patch < 2^15, unpacking the packed word recovers all three fields |
| Version.FieldsDisjoint | Fiasco/Engine.cs:144 | within those ranges the shifted fields share no bit, so the OR is a plain sum |
| Version.PackUnpack | Fiasco/Engine.cs:144 | every 32-bit word is the packing of its own in-range fields |
| Version.MajorTruncated | Fiasco/Engine.cs:144 | bits of major above seven are lost by the 32-bit shift |
| Version.FieldsCollideOutOfRange | Fiasco/Engine.cs:144 | out of range the fields overlap: version 0.1.0 packs like patch 2^15 |
| Version.EngineVersion | Fiasco/Engine.cs:145 | the engine version is 0.0.3, the word 3 |
| EcsModule.TargetVersion | Fiasco/Engine.cs:288-294 | `void_target_version` returns 3, which unpacks to 0.0.3 |
| Registry.Add | Fiasco/Engine.cs:172 | a fresh key is bound to its id and every other key keeps its binding; a present key is DuplicateKey |
| Registry.SecondAddConflicts | Fiasco/Engine.cs:172 | registering a key twice fails whatever the second id, and the first binding survives |
| Registry.AddAllDistinct | Fiasco/Engine.cs:166-174 | distinct fresh names all register, each looks up its own id, other names keep their binding |
| Registry.AddAllDuplicateFails | Fiasco/Engine.cs:166-174 | a registration sequence naming one key twice fails |
| EcsModule.SetComponentId | Fiasco/Engine.cs:166-174 | a null string fails before any change; a duplicate fails with the state unchanged; otherwise exactly that key is added, and the catalog and callbacks are untouched |
| EcsModule.SetComponentIdsIsAddAll | Fiasco/Engine.cs:166-174 | repeated `set_component_id` calls succeed exactly when the dictionary accepts every key, leave the same registry, and never touch catalog or callbacks |
| Catalog.MismatchedDescriptorFaultsOnEvent | Fiasco/Game.cs:8-14 | a descriptor with one argument type and no id list can be built; it is not well-formed, and its one declared EventWriter argument has no readable event id |
| Catalog.SystemLength | Fiasco/Engine.cs:214-219 | `systems_len` is the number of descriptors |
| Catalog.SystemIsOnce | Fiasco/Engine.cs:221-227 | succeeds exactly for an index in [0, len), negative included, and returns that descriptor's Once |
| Catalog.SystemFunction | Fiasco/Engine.cs:229-234 | succeeds exactly for an index below len and returns that descriptor's Fn |
| Catalog.SystemArgumentLength | Fiasco/Engine.cs:236-242 | succeeds exactly for an index below len and returns the length of ArgTypes |
| Catalog.SystemArgumentType | Fiasco/Engine.cs:244-250 | succeeds exactly when both indices are in range and returns ArgTypes[j] |
| Catalog.SystemArgumentEvent | Fiasco/Engine.cs:259-265 | succeeds exactly when i is in range, j indexes ArgIds and that list is non-empty, and returns ArgIds[j][0] |
| Catalog.ArgumentEventDefinedOnDeclaredArgs | Fiasco/Engine.cs:259-265 | in a well-formed catalog the event query answers for a declared argument exactly when its id list is non-empty |
| Catalog.ArgumentEventIgnoresType | Fiasco/Engine.cs:259-265 | a DataAccessMut argument still gets its first id from the event query |
| Catalog.ReadArgTypes | Fiasco/Engine.cs:236-250 | reading the argument count and then each argument's type rebuilds the descriptor's ArgTypes exactly |
| Callbacks.Empty | Fiasco/Engine.cs:147-158 | at load every one of the twelve slots is null |
| Callbacks.Set | Fiasco/Engine.cs:300-337 | each switch arm sets the slot of its own kind and leaves the other eleven unchanged |
| Callbacks.SlotsDetermineTable | Fiasco/Engine.cs:147-158 | the twelve slots are the whole table: tables equal on every slot are equal |
| Callbacks.SetOverwrites | Fiasco/Engine.cs:296-341 | registering a kind twice leaves only the second pointer |
| Callbacks.SetCommutes | Fiasco/Engine.cs:296-341 | registrations of different kinds commute, so the host's order does not matter |
| EcsModule.Load | Fiasco/Engine.cs:142-158 | at load the module holds the game, an empty id registry and an all-null callback table |
| EcsModule.SetCallbackFunc | Fiasco/Engine.cs:296-341 | an unknown code fails with the state unchanged; a null pointer fails; otherwise only the slot whose code was given changes |
| EcsModule.SetCallbackFuncOverwrites | Fiasco/Engine.cs:296-341 | registering a code twice with non-null pointers leaves the same state as registering only the second |
| EcsModule.SetCallbacksLastWins | Fiasco/Engine.cs:296-341 | after valid registrations each kind holds its last registered pointer, an unregistered kind keeps its slot, and the catalog and ids are untouched |
| EcsModule.RegisteringEveryKindIsReady | Fiasco/Engine.cs:296-341 | registering codes 0..11 with non-null pointers fills every slot with its own pointer |
| Bridge.ArgSlotAddress | Fiasco/Engine.cs:162 | the argument address is a 64-bit address congruent to sysPtr + 8*offset |
| Bridge.ArgSlotsAtStride | Fiasco/Engine.cs:162 | without wrap-around argument k is at sysPtr + 8k, with addresses strictly increasing in k |
| Bridge.ArgSlotsDistinct | Fiasco/Engine.cs:162 | two offsets less than 2^61 apart never share a slot, even with wrap-around |
| Bridge.ReadWord | Fiasco/Engine.cs:162 | reading host memory gives the stored word, or an access violation at that address |
| Bridge.SendEvent | Fiasco/Engine.cs:160-164 | succeeds exactly when the slot is mapped and EventSend is set; then it makes one EventSend call with the slot's word, the bytes and their length; an unmapped slot faults first, then an unset delegate |
| JasonGame.SystemDefinitions | Fiasco/Engine.cs:78-85 | the demo catalog is well-formed: one system, not once, its Fn, four EventWriter arguments, event ids of circle, text, line, rectangle |
| JasonGame.SendFrom | Fiasco/Engine.cs:60-76 | each call made is the SendEvent of the next offset; it succeeds after sending all payloads, or stops at the first SendEvent that faults |
| JasonGame.Fn | Fiasco/Engine.cs:60-76 | at most four calls, call k being EventSend with argument k's handle and payload k; returns 0 exactly when EventSend is set and all four slots are mapped; with EventSend unset no call is made; on a fault, the calls already made are followed by exactly the failing SendEvent, whose error is returned |
| JasonGame.FnSendsFourEvents | Fiasco/Engine.cs:60-76 | with EventSend set and four handles at stride 8, Fn makes exactly the four calls in order and returns 0 |
| JasonGame.SendEventIgnoresArity | Fiasco/Engine.cs:160-164 | SendEvent through offset 4 succeeds although the system declares four arguments |
| EcsModule.ResourceInit | Fiasco/Engine.cs:176-182 | `resource_init` returns handle 0 |
| EcsModule.ComponentSize | Fiasco/Engine.cs:184-189 | `component_size` returns 0 |
| EcsModule.ComponentStringId | Fiasco/Engine.cs:191-196 | `component_string_id` returns the null pointer |
| EcsModule.ComponentAlignment | Fiasco/Engine.cs:198-204 | `component_align` returns 1 |
| EcsModule.ComponentType | Fiasco/Engine.cs:206-212 | `component_type` returns Component |
| EcsModule.SystemArgumentComponent | Fiasco/Engine.cs:252-257 | `system_arg_component` returns null |
| EcsModule.SystemQueryArgumentsLength | Fiasco/Engine.cs:267-272 | `system_query_args_len` returns 0 |
| EcsModule.SystemQueryArgumentType | Fiasco/Engine.cs:274-279 | `system_query_arg_type` returns code 0 |
| EcsModule.SystemQueryArgumentComponent | Fiasco/Engine.cs:281-286 | `system_query_arg_component` returns 0 |
| EcsModule.QueryArgTypeReadsAsDataAccessMut | Fiasco/Engine.cs:274-279 | the code `system_query_arg_type` reports decodes as the argument type DataAccessMut |
| EcsModule.DemoScenario | Fiasco/Engine.cs:60-85 | load the demo game, register four distinct ids and all twelve callbacks, then run the system: it makes exactly four EventSend calls, one per declared EventWriter argument in order, each with its handle and payload, and returns 0 |

## Left out

- Console logging: pure output, with no effect on any result.
- Marshalling: `StringToCoTaskMemUTF8`, `PtrToStringUTF8`,
  `GetFunctionPointerForDelegate`, `GetDelegateForFunctionPointer` and the
  unmanaged-caller ABI. Pointers are opaque naturals. A string pointer
  arrives already decoded as `Option<string>`, with `None` for null. Only the
  null-pointer refusal of `GetDelegateForFunctionPointer` is modelled.
- The payload builders `CreateDrawCircleBytes`, `CreateDrawTextBytes`,
  `CreateDrawLineBytes`, `CreateDrawRectangleBytes` and
  `Fiasco/flat/Graphics/DrawCircle.cs`. They are generated FlatBuffers code
  over an external library, and their contents are floats. The four payloads
  are opaque parameters (`JasonGame.Payloads`).
- What the host's delegates do, and the values they return. `SendEvent`
  discards the return value, and only the call made is recorded.
- The other eleven callbacks. The module stores them but never invokes them,
  so only their registration is modelled.
- Threading and publication order between registration and invocation. The
  source has no synchronisation to model.
- Integer widths of the index parameters (`int` versus `nuint`) are not
  modelled beyond signedness. An index of 2^31 or more is simply out of
  range, because the arrays are far shorter.
- Machine words read from host memory are unbounded integers. The module
  only forwards them.
- The stub entry points also decode their string pointer and log it.
  Decoding a dangling pointer could fault, and that fault is not modelled.
- JasonGame.Fn: the four `SendEvent` calls read the same host memory and
  callback table. This assumes the host's EventSend delegate does not write
  the argument array or call `set_callback_fn` while a system runs. The
  source re-reads both after each delegate returns, so a host that did
  either would change the handles or target of later calls.
- Null or mutated descriptor arrays. C# allows `ArgTypes` or `ArgIds` to be
  null, and `default(SystemDefinition)` has both null. Then
  `system_args_len` and the other readers would throw NullReferenceException.
  `IGame` also hands out the live, writable arrays. The model's sequences can
  be neither null nor changed. No code in the module creates a null
  descriptor or writes to one, so this case never arises for the demo game.
- Process termination: an error result is the cause of the termination
  described above. The model does not represent the termination itself or
  the lost host state.
