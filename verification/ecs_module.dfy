/** `EcsModule`: the module's exported entry points over its state. The
    source keeps the state in static fields; here it is one value passed to
    and returned from each registration call. The game (the catalog) is
    created once and never replaced. */
module EcsModule {
  import opened Types
  import Version
  import Registry
  import Callbacks
  import opened Catalog
  import Bridge
  import JasonGame

  datatype ModuleState = ModuleState(
    game: Game,
    componentIds: Registry.Registry,
    callbacks: Callbacks.CallbackTable)

  /** The state after a registration call and whether it raised. A call
      that raises leaves the state as it found it. */
  datatype Step = Step(state: ModuleState, outcome: Outcome)

  /** The state at load: the catalog built, no ids, no callbacks. */
  function Load(game: Game): (s: ModuleState)
    ensures s.game == game
    ensures s.componentIds == Registry.EmptyRegistry
    ensures forall k :: Callbacks.Slot(s.callbacks, k) == None
  {
    ModuleState(game, map[], Callbacks.Empty())
  }

  /** `void_target_version`: version 0.0.3. */
  function TargetVersion(): (v: bv32)
    ensures v == 3
    ensures Version.Major(v) == 0 && Version.Minor(v) == 0 && Version.Patch(v) == 3
  {
    Version.EngineVersion()
  }

  /** `set_component_id`: the id string (None for a null pointer) is
      checked for null before anything changes, then added to the
      registry; a duplicate is refused and the registry kept. */
  function SetComponentId(s: ModuleState, stringId: Option<string>, componentId: int): (r: Step)
    ensures stringId.None? ==> r == Step(s, Fail(NullArgument))
    ensures stringId.Some? && stringId.value in s.componentIds ==>
              r == Step(s, Fail(DuplicateKey(stringId.value)))
    ensures r.outcome.Pass? <==> stringId.Some? && stringId.value !in s.componentIds
    ensures r.outcome.Pass? ==>
              r.state.componentIds == s.componentIds[stringId.value := componentId]
              && r.state.game == s.game && r.state.callbacks == s.callbacks
  {
    match stringId
    case None => Step(s, Fail(NullArgument))
    case Some(key) =>
      match Registry.Add(s.componentIds, key, componentId)
      case Err(e) => Step(s, Fail(e))
      case Ok(reg) => Step(s.(componentIds := reg), Pass)
  }

  /** `set_callback_fn`: the switch decodes the kind first and rejects a
      code outside the twelve kinds; then turning a null pointer into a
      delegate raises; otherwise exactly the slot for that kind is set. */
  function SetCallbackFunc(s: ModuleState, callbackType: int, callbackFuncPtr: Ptr): (r: Step)
    ensures !(0 <= callbackType < CALLBACK_KINDS) ==>
              r == Step(s, Fail(UnknownCallbackType(callbackType)))
    ensures 0 <= callbackType < CALLBACK_KINDS && callbackFuncPtr == 0 ==>
              r == Step(s, Fail(NullArgument))
    ensures r.outcome.Pass? <==> 0 <= callbackType < CALLBACK_KINDS && callbackFuncPtr != 0
    ensures r.state.game == s.game && r.state.componentIds == s.componentIds
    ensures forall k :: Callbacks.Slot(r.state.callbacks, k) ==
              if r.outcome.Pass? && CallbackCode(k) == callbackType then Some(callbackFuncPtr)
              else Callbacks.Slot(s.callbacks, k)
  {
    match CallbackKindOfCode(callbackType)
    case None => Step(s, Fail(UnknownCallbackType(callbackType)))
    case Some(kind) =>
      if callbackFuncPtr == 0 then Step(s, Fail(NullArgument))
      else Step(s.(callbacks := Callbacks.Set(s.callbacks, kind, callbackFuncPtr)), Pass)
  }

  /** A second `set_callback_fn` for the same code replaces the first:
      the module ends in the state the second call alone produces. (A null
      second pointer raises instead and leaves the first in place.) */
  lemma SetCallbackFuncOverwrites(s: ModuleState, callbackType: int, first: Ptr, second: Ptr)
    requires first != 0 && second != 0
    ensures SetCallbackFunc(SetCallbackFunc(s, callbackType, first).state, callbackType, second)
            == SetCallbackFunc(s, callbackType, second)
  {
    var once := SetCallbackFunc(s, callbackType, second);
    var twice := SetCallbackFunc(SetCallbackFunc(s, callbackType, first).state, callbackType, second);
    Callbacks.SlotsDetermineTable(twice.state.callbacks, once.state.callbacks);
  }

  /** A sequence of `set_callback_fn` calls, stopping at the first that
      raises. */
  function SetCallbacks(s: ModuleState, regs: seq<(int, Ptr)>): Step
    decreases |regs|
  {
    if regs == [] then Step(s, Pass)
    else
      var step := SetCallbackFunc(s, regs[0].0, regs[0].1);
      if step.outcome.Fail? then step else SetCallbacks(step.state, regs[1..])
  }

  predicate ValidRegistration(reg: (int, Ptr)) {
    0 <= reg.0 < CALLBACK_KINDS && reg.1 != 0
  }

  /** When every registration is valid they all succeed; a kind's slot holds
      the pointer of the LAST registration of that kind, and a kind never
      registered keeps its slot. Registration never touches the catalog or
      the ids. */
  lemma {:induction false} SetCallbacksLastWins(s: ModuleState, regs: seq<(int, Ptr)>)
    requires forall i :: 0 <= i < |regs| ==> ValidRegistration(regs[i])
    ensures SetCallbacks(s, regs).outcome == Pass
    ensures SetCallbacks(s, regs).state.game == s.game
    ensures SetCallbacks(s, regs).state.componentIds == s.componentIds
    ensures forall i, k ::
              (0 <= i < |regs| && CallbackCode(k) == regs[i].0
               && (forall j :: i < j < |regs| ==> regs[j].0 != regs[i].0)) ==>
              Callbacks.Slot(SetCallbacks(s, regs).state.callbacks, k) == Some(regs[i].1)
    ensures forall k :: (forall i :: 0 <= i < |regs| ==> regs[i].0 != CallbackCode(k)) ==>
              Callbacks.Slot(SetCallbacks(s, regs).state.callbacks, k) == Callbacks.Slot(s.callbacks, k)
    decreases |regs|
  {
    if regs != [] {
      var step := SetCallbackFunc(s, regs[0].0, regs[0].1);
      var rest := regs[1..];
      assert forall i :: 0 <= i < |rest| ==> rest[i] == regs[i + 1];
      SetCallbacksLastWins(step.state, rest);
      var final := SetCallbacks(s, regs).state.callbacks;
      assert SetCallbacks(s, regs) == SetCallbacks(step.state, rest);
      forall i, k | 0 <= i < |regs| && CallbackCode(k) == regs[i].0
                    && (forall j :: i < j < |regs| ==> regs[j].0 != regs[i].0)
        ensures Callbacks.Slot(final, k) == Some(regs[i].1)
      {
        if i > 0 {
          assert rest[i - 1] == regs[i];
          assert forall j :: i - 1 < j < |rest| ==> rest[j].0 != rest[i - 1].0 by {
            forall j | i - 1 < j < |rest|
              ensures rest[j].0 != rest[i - 1].0
            {
              assert rest[j] == regs[j + 1];
            }
          }
        } else {
          assert forall j :: 0 <= j < |rest| ==> rest[j].0 != CallbackCode(k) by {
            forall j | 0 <= j < |rest|
              ensures rest[j].0 != CallbackCode(k)
            {
              assert rest[j] == regs[j + 1];
            }
          }
        }
      }
      forall k | (forall i :: 0 <= i < |regs| ==> regs[i].0 != CallbackCode(k))
        ensures Callbacks.Slot(final, k) == Callbacks.Slot(s.callbacks, k)
      {
        assert regs[0].0 != CallbackCode(k);
        assert forall i :: 0 <= i < |rest| ==> rest[i].0 != CallbackCode(k) by {
          forall i | 0 <= i < |rest|
            ensures rest[i].0 != CallbackCode(k)
          {
            assert rest[i] == regs[i + 1];
          }
        }
      }
    }
  }

  /** The host's registration of all twelve kinds, code c with pointer
      ptrs[c]. */
  function AllCallbacks(ptrs: seq<Ptr>): (regs: seq<(int, Ptr)>)
    requires |ptrs| == CALLBACK_KINDS
    ensures |regs| == CALLBACK_KINDS
    ensures forall c :: 0 <= c < CALLBACK_KINDS ==> regs[c] == (c, ptrs[c])
  {
    seq(CALLBACK_KINDS, c requires 0 <= c < CALLBACK_KINDS => (c, ptrs[c]))
  }

  /** Registering every kind once with a non-null pointer makes the table
      ready, with kind k holding the pointer registered under its code. */
  lemma RegisteringEveryKindIsReady(s: ModuleState, ptrs: seq<Ptr>)
    requires |ptrs| == CALLBACK_KINDS
    requires forall c :: 0 <= c < CALLBACK_KINDS ==> ptrs[c] != 0
    ensures SetCallbacks(s, AllCallbacks(ptrs)).outcome == Pass
    ensures forall k :: Callbacks.Slot(SetCallbacks(s, AllCallbacks(ptrs)).state.callbacks, k)
                          == Some(ptrs[CallbackCode(k)])
    ensures Callbacks.Ready(SetCallbacks(s, AllCallbacks(ptrs)).state.callbacks)
  {
    var regs := AllCallbacks(ptrs);
    SetCallbacksLastWins(s, regs);
    forall k
      ensures Callbacks.Slot(SetCallbacks(s, regs).state.callbacks, k) == Some(ptrs[CallbackCode(k)])
    {
      var i := CallbackCode(k);
      assert regs[i] == (i, ptrs[i]);
      assert forall j :: i < j < |regs| ==> regs[j].0 != regs[i].0 by {
        forall j | i < j < |regs|
          ensures regs[j].0 != regs[i].0
        {
          assert regs[j] == (j, ptrs[j]);
        }
      }
    }
  }

  /** A sequence of `set_component_id` calls with non-null strings. */
  function SetComponentIds(s: ModuleState, entries: seq<(string, int)>): Step
    decreases |entries|
  {
    if entries == [] then Step(s, Pass)
    else
      var step := SetComponentId(s, Some(entries[0].0), entries[0].1);
      if step.outcome.Fail? then step else SetComponentIds(step.state, entries[1..])
  }

  /** The entry-point sequence agrees with registering into the dictionary
      directly, and leaves the catalog and the callbacks alone. */
  lemma {:induction false} SetComponentIdsIsAddAll(s: ModuleState, entries: seq<(string, int)>)
    ensures SetComponentIds(s, entries).state.game == s.game
    ensures SetComponentIds(s, entries).state.callbacks == s.callbacks
    ensures SetComponentIds(s, entries).outcome.Pass? <==> Registry.AddAll(s.componentIds, entries).Ok?
    ensures SetComponentIds(s, entries).outcome.Pass? ==>
              SetComponentIds(s, entries).state.componentIds == Registry.AddAll(s.componentIds, entries).value
    decreases |entries|
  {
    if entries != [] {
      var step := SetComponentId(s, Some(entries[0].0), entries[0].1);
      if step.outcome.Pass? {
        SetComponentIdsIsAddAll(step.state, entries[1..]);
      }
    }
  }

  /** `resource_init`: ignores its arguments and returns the null handle. */
  function ResourceInit(strId: Ptr, val: int): (r: int)
    ensures r == 0
  {
    0
  }

  /** `component_size`: a size of zero whatever the component. */
  function ComponentSize(strId: Ptr): (r: nat)
    ensures r == 0
  {
    0
  }

  /** `component_string_id`: the null string whatever the index. */
  function ComponentStringId(index: nat): (r: Ptr)
    ensures r == 0
  {
    0
  }

  /** `component_align`: alignment one (no constraint). */
  function ComponentAlignment(strId: Ptr): (r: nat)
    ensures r == 1
  {
    1
  }

  /** `component_type`: every component is a plain component. */
  function ComponentType(strId: Ptr): (r: ComponentKind)
    ensures r == Component
  {
    Component
  }

  /** `system_arg_component`: no component is ever bound. */
  function SystemArgumentComponent(g: Game, systemIndex: nat, argIndex: nat): (r: Option<int>)
    ensures r == None
  {
    None
  }

  /** `system_query_args_len`: every query reports zero sub-arguments. */
  function SystemQueryArgumentsLength(g: Game, systemIndex: nat, argIndex: nat): (r: nat)
    ensures r == 0
  {
    0
  }

  /** `system_query_arg_type`: the raw code 0. */
  function SystemQueryArgumentType(g: Game, systemIndex: nat, systemArgIndex: nat, queryArgIndex: nat): (r: nat)
    ensures r == 0
  {
    0
  }

  /** `system_query_arg_component`: the id 0. */
  function SystemQueryArgumentComponent(g: Game, systemIndex: nat, systemArgIndex: nat, queryArgIndex: nat): (r: int)
    ensures r == 0
  {
    0
  }

  /** The raw code `system_query_arg_type` reports is a valid argument type
      code: the host reads every query sub-argument as `DataAccessMut`. */
  lemma QueryArgTypeReadsAsDataAccessMut(g: Game, i: nat, j: nat, k: nat)
    ensures ArgTypeOfCode(SystemQueryArgumentType(g, i, j, k)) == Some(DataAccessMut)
  {
  }

  /** The host's whole protocol against the demo game: load, register four
      event ids, register all twelve callbacks, then invoke the one system
      with an argument array holding a handle per argument. The system
      makes exactly four EventSend calls, one per declared EventWriter
      argument in order, each with that argument's handle and payload, and
      returns 0. */
  lemma {:induction false} DemoScenario(
    names: JasonGame.EventNames, fnPtr: Ptr, ids: seq<(string, int)>, ptrs: seq<Ptr>,
    mem: Bridge.Memory, sysPtr: Ptr, handles: seq<int>, payloads: JasonGame.Payloads)
    requires |ids| == 4 && Registry.DistinctKeys(ids)
    requires |ptrs| == CALLBACK_KINDS
    requires forall c :: 0 <= c < CALLBACK_KINDS ==> ptrs[c] != 0
    requires |handles| == 4 && sysPtr + 4 * WORD_BYTES <= ADDRESS_SPACE
    requires forall k :: 0 <= k < 4 ==> sysPtr + k * WORD_BYTES in mem && mem[sysPtr + k * WORD_BYTES] == handles[k]
    ensures
      var s0 := Load(JasonGame.SystemDefinitions(names, fnPtr));
      var s1 := SetComponentIds(s0, ids);
      var s2 := SetCallbacks(s1.state, AllCallbacks(ptrs));
      var run := JasonGame.Fn(s2.state.callbacks, mem, sysPtr, payloads);
      && s1.outcome == Pass
      && (forall i :: 0 <= i < 4 ==> Registry.Lookup(s1.state.componentIds, ids[i].0) == Some(ids[i].1))
      && s2.outcome == Pass
      && s2.state.game == s0.game
      && run.result == Ok(0)
      && |run.calls| == 4
      && (forall k :: 0 <= k < 4 ==>
            && SystemArgumentType(s2.state.game, 0, k) == Ok(EventWriter)
            && run.calls[k] == Bridge.HostCall(EventSendFn, ptrs[CallbackCode(EventSendFn)], handles[k],
                                               JasonGame.PayloadOrder(payloads)[k],
                                               |JasonGame.PayloadOrder(payloads)[k]|))
  {
    var s0 := Load(JasonGame.SystemDefinitions(names, fnPtr));
    Registry.AddAllDistinct(s0.componentIds, ids);
    SetComponentIdsIsAddAll(s0, ids);
    var s1 := SetComponentIds(s0, ids);
    SetCallbacksLastWins(s1.state, AllCallbacks(ptrs));
    RegisteringEveryKindIsReady(s1.state, ptrs);
    var s2 := SetCallbacks(s1.state, AllCallbacks(ptrs));
    JasonGame.FnSendsFourEvents(s2.state.callbacks, mem, sysPtr, handles, payloads);
  }
}
