/** The component-id registry: the `Dictionary<string, nint>` that maps a
    component's string identifier to the numeric id the host assigned. */
module Registry {
  import opened Types

  type Registry = map<string, int>

  const EmptyRegistry: Registry := map[]

  function Lookup(reg: Registry, key: string): Option<int> {
    if key in reg then Some(reg[key]) else None
  }

  /** `Dictionary.Add`: a fresh key is bound to its id and nothing else
      changes; a key already present is refused and the registry is left
      as it was. */
  function Add(reg: Registry, key: string, id: int): (r: Result<Registry>)
    ensures r.Ok? <==> Lookup(reg, key).None?
    ensures r.Err? ==> r.error == DuplicateKey(key)
    ensures r.Ok? ==> Lookup(r.value, key) == Some(id)
    ensures r.Ok? ==> forall k :: k != key ==> Lookup(r.value, k) == Lookup(reg, k)
    ensures r.Ok? ==> |r.value| == |reg| + 1
  {
    if key in reg then Err(DuplicateKey(key)) else Ok(reg[key := id])
  }

  /** Registering the same key a second time fails whatever the new id,
      and the first binding survives. */
  lemma SecondAddConflicts(reg: Registry, key: string, first: int, second: int)
    requires Lookup(reg, key).None?
    ensures Add(reg, key, first).Ok?
    ensures Add(Add(reg, key, first).value, key, second) == Err(DuplicateKey(key))
    ensures Lookup(Add(reg, key, first).value, key) == Some(first)
  {
  }

  /** The keys of a list of registrations. */
  function Keys(entries: seq<(string, int)>): (ks: seq<string>)
    ensures |ks| == |entries|
    ensures forall i :: 0 <= i < |entries| ==> ks[i] == entries[i].0
  {
    if entries == [] then [] else [entries[0].0] + Keys(entries[1..])
  }

  /** Registers the entries in order, stopping at the first refusal. */
  function AddAll(reg: Registry, entries: seq<(string, int)>): Result<Registry>
    decreases |entries|
  {
    if entries == [] then Ok(reg)
    else
      match Add(reg, entries[0].0, entries[0].1)
      case Err(e) => Err(e)
      case Ok(reg') => AddAll(reg', entries[1..])
  }

  predicate DistinctKeys(entries: seq<(string, int)>) {
    forall i, j :: 0 <= i < j < |entries| ==> entries[i].0 != entries[j].0
  }

  /** Registering distinct fresh names always succeeds, every registered name
      looks up its id afterwards, and names outside the list keep their
      previous binding. */
  lemma {:induction false} AddAllDistinct(reg: Registry, entries: seq<(string, int)>)
    requires DistinctKeys(entries)
    requires forall i :: 0 <= i < |entries| ==> entries[i].0 !in reg
    ensures AddAll(reg, entries).Ok?
    ensures forall i :: 0 <= i < |entries| ==>
              Lookup(AddAll(reg, entries).value, entries[i].0) == Some(entries[i].1)
    ensures forall k :: k !in Keys(entries) ==>
              Lookup(AddAll(reg, entries).value, k) == Lookup(reg, k)
    decreases |entries|
  {
    if entries != [] {
      var reg' := reg[entries[0].0 := entries[0].1];
      var rest := entries[1..];
      assert Add(reg, entries[0].0, entries[0].1) == Ok(reg');
      forall i | 0 <= i < |rest|
        ensures rest[i].0 !in reg'
      {
        assert rest[i] == entries[i + 1];
      }
      AddAllDistinct(reg', rest);
      var final := AddAll(reg', rest).value;
      forall i | 0 <= i < |entries|
        ensures Lookup(final, entries[i].0) == Some(entries[i].1)
      {
        if i > 0 {
          assert entries[i] == rest[i - 1];
        } else {
          assert entries[0].0 !in Keys(rest) by {
            forall j | 0 <= j < |rest|
              ensures Keys(rest)[j] != entries[0].0
            {
              assert rest[j] == entries[j + 1];
            }
          }
        }
      }
      forall k | k !in Keys(entries)
        ensures Lookup(final, k) == Lookup(reg, k)
      {
        assert Keys(entries)[0] == entries[0].0;
        assert k != entries[0].0;
      }
    }
  }

  /** A list that names the same key twice is refused. */
  lemma {:induction false} AddAllDuplicateFails(reg: Registry, entries: seq<(string, int)>, i: nat, j: nat)
    requires i < j < |entries|
    requires entries[i].0 == entries[j].0
    ensures AddAll(reg, entries).Err?
    decreases |entries|
  {
    match Add(reg, entries[0].0, entries[0].1)
    case Err(_) =>
    case Ok(reg') =>
      var rest := entries[1..];
      if i == 0 {
        AddAllKeepsKey(reg', rest, entries[0].0);
        assert rest[j - 1].0 == entries[0].0;
        AddAllFailsOnPresentKey(reg', rest, j - 1);
      } else {
        assert rest[i - 1] == entries[i] && rest[j - 1] == entries[j];
        AddAllDuplicateFails(reg', rest, i - 1, j - 1);
      }
  }

  /** A key already present is still present after further registrations. */
  lemma {:induction false} AddAllKeepsKey(reg: Registry, entries: seq<(string, int)>, key: string)
    requires key in reg
    ensures AddAll(reg, entries).Ok? ==> key in AddAll(reg, entries).value
    decreases |entries|
  {
    if entries != [] {
      match Add(reg, entries[0].0, entries[0].1)
      case Err(_) =>
      case Ok(reg') => AddAllKeepsKey(reg', entries[1..], key);
    }
  }

  /** Reaching an entry whose key is already registered fails. */
  lemma {:induction false} AddAllFailsOnPresentKey(reg: Registry, entries: seq<(string, int)>, j: nat)
    requires j < |entries|
    requires entries[j].0 in reg
    ensures AddAll(reg, entries).Err?
    decreases |entries|
  {
    match Add(reg, entries[0].0, entries[0].1)
    case Err(_) =>
    case Ok(reg') =>
      assert j > 0;
      assert entries[1..][j - 1] == entries[j];
      AddAllFailsOnPresentKey(reg', entries[1..], j - 1);
  }
}
