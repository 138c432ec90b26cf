/** The system catalog (`IGame.SystemDefinitions`, an ordered array of
    `SystemDefinition`) and the read-only entry points through which the
    host inspects it. Each entry point indexes the arrays exactly as the
    source does; an index outside an array is `IndexOutOfRange`. */
module Catalog {
  import opened Types

  /** `SystemDefinition`: the constructor stores its four arguments unchanged
      and does not relate the lengths of `argTypes` and `argIds`. The C#
      fields are readonly references to arrays that stay writable, but no
      code in the module writes to or nulls them after construction, so a
      value with immutable sequences has the same observable behaviour. */
  datatype SystemDefinition = SystemDefinition(
    once: bool,
    argTypes: seq<ArgType>,
    argIds: seq<seq<int>>,
    fn: Ptr)

  /** `IGame`: the whole catalog as one ordered sequence of descriptors. */
  datatype Game = Game(systemDefinitions: seq<SystemDefinition>)

  /** One identifier list per argument, as the host's introspection assumes. */
  predicate WellFormedSystem(d: SystemDefinition) {
    |d.argTypes| == |d.argIds|
  }

  predicate WellFormed(g: Game) {
    forall i :: 0 <= i < |g.systemDefinitions| ==> WellFormedSystem(g.systemDefinitions[i])
  }

  /** The constructor accepts a descriptor with more argument types than id
      lists. For it, `system_args_len` and `system_arg_type` describe an
      argument whose event id cannot be read: the entry points disagree. */
  lemma MismatchedDescriptorFaultsOnEvent()
    ensures !WellFormed(Game([SystemDefinition(false, [EventWriter], [], 0)]))
    ensures SystemArgumentLength(Game([SystemDefinition(false, [EventWriter], [], 0)]), 0) == Ok(1)
    ensures SystemArgumentType(Game([SystemDefinition(false, [EventWriter], [], 0)]), 0, 0) == Ok(EventWriter)
    ensures SystemArgumentEvent(Game([SystemDefinition(false, [EventWriter], [], 0)]), 0, 0) == Err(IndexOutOfRange)
  {
    var g := Game([SystemDefinition(false, [EventWriter], [], 0)]);
    assert !WellFormedSystem(g.systemDefinitions[0]);
  }

  /** `systems_len`. */
  function SystemLength(g: Game): (n: nat)
    ensures n == |g.systemDefinitions|
  {
    |g.systemDefinitions|
  }

  /** `system_is_once`: the index is a signed `int`, so a negative index is
      out of range like one past the end. */
  function SystemIsOnce(g: Game, systemIndex: int): (r: Result<bool>)
    ensures r.Ok? <==> 0 <= systemIndex < SystemLength(g)
    ensures r.Err? ==> r.error == IndexOutOfRange
    ensures r.Ok? ==> r.value == g.systemDefinitions[systemIndex].once
  {
    if 0 <= systemIndex < |g.systemDefinitions| then Ok(g.systemDefinitions[systemIndex].once)
    else Err(IndexOutOfRange)
  }

  /** `system_fn`. */
  function SystemFunction(g: Game, systemIndex: nat): (r: Result<Ptr>)
    ensures r.Ok? <==> systemIndex < SystemLength(g)
    ensures r.Err? ==> r.error == IndexOutOfRange
    ensures r.Ok? ==> r.value == g.systemDefinitions[systemIndex].fn
  {
    if systemIndex < |g.systemDefinitions| then Ok(g.systemDefinitions[systemIndex].fn)
    else Err(IndexOutOfRange)
  }

  /** `system_args_len`: the number of argument TYPES; the id lists are not
      consulted. */
  function SystemArgumentLength(g: Game, systemIndex: nat): (r: Result<nat>)
    ensures r.Ok? <==> systemIndex < SystemLength(g)
    ensures r.Err? ==> r.error == IndexOutOfRange
    ensures r.Ok? ==> r.value == |g.systemDefinitions[systemIndex].argTypes|
  {
    if systemIndex < |g.systemDefinitions| then Ok(|g.systemDefinitions[systemIndex].argTypes|)
    else Err(IndexOutOfRange)
  }

  /** `system_arg_type`: bounds-checked on both indices. */
  function SystemArgumentType(g: Game, systemIndex: nat, argIndex: nat): (r: Result<ArgType>)
    ensures r.Ok? <==>
              systemIndex < SystemLength(g)
              && argIndex < SystemArgumentLength(g, systemIndex).value
    ensures r.Err? ==> r.error == IndexOutOfRange
    ensures r.Ok? ==> r.value == g.systemDefinitions[systemIndex].argTypes[argIndex]
  {
    if systemIndex < |g.systemDefinitions| && argIndex < |g.systemDefinitions[systemIndex].argTypes| then
      Ok(g.systemDefinitions[systemIndex].argTypes[argIndex])
    else Err(IndexOutOfRange)
  }

  /** `system_arg_event`: the first id of the argument's id list. The index
      is checked against the id lists, not the argument types, the list must
      be non-empty, and nothing checks that the argument is an event. */
  function SystemArgumentEvent(g: Game, systemIndex: nat, argIndex: nat): (r: Result<int>)
    ensures r.Ok? <==>
              systemIndex < SystemLength(g)
              && argIndex < |g.systemDefinitions[systemIndex].argIds|
              && g.systemDefinitions[systemIndex].argIds[argIndex] != []
    ensures r.Err? ==> r.error == IndexOutOfRange
    ensures r.Ok? ==> r.value == g.systemDefinitions[systemIndex].argIds[argIndex][0]
  {
    if systemIndex < |g.systemDefinitions|
       && argIndex < |g.systemDefinitions[systemIndex].argIds|
       && |g.systemDefinitions[systemIndex].argIds[argIndex]| > 0
    then Ok(g.systemDefinitions[systemIndex].argIds[argIndex][0])
    else Err(IndexOutOfRange)
  }

  /** In a well-formed catalog, `system_arg_event` answers for exactly those
      declared arguments whose id list is non-empty, whatever the argument's
      type: a data or query argument gets its first id too. */
  lemma ArgumentEventDefinedOnDeclaredArgs(g: Game, i: nat, j: nat)
    requires WellFormed(g)
    requires SystemArgumentType(g, i, j).Ok?
    ensures SystemArgumentEvent(g, i, j).Ok? <==> g.systemDefinitions[i].argIds[j] != []
  {
  }

  /** The event query does not check the argument's type. */
  lemma ArgumentEventIgnoresType()
    ensures SystemArgumentEvent(Game([SystemDefinition(false, [DataAccessMut], [[7]], 1)]), 0, 0) == Ok(7)
    ensures SystemArgumentType(Game([SystemDefinition(false, [DataAccessMut], [[7]], 1)]), 0, 0) == Ok(DataAccessMut)
  {
  }

  /** The host's walk over the introspection surface: asking
      `system_args_len` and then `system_arg_type` for each argument
      rebuilds the descriptor's argument list exactly. */
  method ReadArgTypes(g: Game, systemIndex: nat) returns (r: Result<seq<ArgType>>)
    ensures r.Ok? <==> systemIndex < SystemLength(g)
    ensures r.Ok? ==> r.value == g.systemDefinitions[systemIndex].argTypes
  {
    var len := SystemArgumentLength(g, systemIndex);
    if len.Err? {
      return Err(len.error);
    }
    var types: seq<ArgType> := [];
    var j: nat := 0;
    while j < len.value
      invariant j <= len.value
      invariant types == g.systemDefinitions[systemIndex].argTypes[..j]
    {
      var t := SystemArgumentType(g, systemIndex, j);
      types := types + [t.value];
      j := j + 1;
    }
    return Ok(types);
  }
}
