/** Expansion of objectClass values over the superiors declared in the schema. */
module ObjectClasses {
  import opened Text

  /** The registry's object classes, by the folded name they are looked up under. */
  type Registry = map<string, seq<string>>

  /** schemaKey: the spelling-independent name of a class. */
  function Fold(identifier: string): string { ToLower(TrimSpace(identifier)) }

  function Superiors(registry: Registry, key: string): seq<string> {
    if key in registry then registry[key] else []
  }

  // ----- reachability -----

  /** b is the folded, non-empty name of a declared superior of class a. */
  ghost predicate Edge(registry: Registry, a: string, b: string) {
    b != "" && exists i :: 0 <= i < |Superiors(registry, a)| && Fold(Superiors(registry, a)[i]) == b
  }

  ghost predicate ReachableIn(registry: Registry, values: seq<string>, key: string, steps: nat)
    decreases steps
  {
    if steps == 0 then key != "" && exists i :: 0 <= i < |values| && Fold(values[i]) == key
    else exists a :: ReachableIn(registry, values, a, steps - 1) && Edge(registry, a, key)
  }

  ghost predicate Reachable(registry: Registry, values: seq<string>, key: string) {
    exists steps: nat :: ReachableIn(registry, values, key, steps)
  }

  ghost predicate Closed(registry: Registry, seen: set<string>, within: set<string>) {
    forall a, b :: a in within && Edge(registry, a, b) ==> b in seen
  }

  lemma {:induction false} ReachableStays(
      registry: Registry, values: seq<string>, key: string, steps: nat, seen: set<string>)
    requires ReachableIn(registry, values, key, steps) && Closed(registry, seen, seen)
    requires forall i :: 0 <= i < |values| ==> Fold(values[i]) == "" || Fold(values[i]) in seen
    ensures key in seen
    decreases steps
  {
    hide Fold;
    if steps > 0 {
      var a :| ReachableIn(registry, values, a, steps - 1) && Edge(registry, a, key);
      ReachableStays(registry, values, a, steps - 1, seen);
    }
  }

  lemma ReachableStep(registry: Registry, values: seq<string>, a: string, b: string)
    requires Reachable(registry, values, a) && Edge(registry, a, b)
    ensures Reachable(registry, values, b)
  {
    var steps: nat :| ReachableIn(registry, values, a, steps);
    assert ReachableIn(registry, values, b, steps + 1);
  }

  lemma ReachableRoot(registry: Registry, values: seq<string>, index: nat)
    requires index < |values| && Fold(values[index]) != ""
    ensures Reachable(registry, values, Fold(values[index]))
  {
    assert ReachableIn(registry, values, Fold(values[index]), 0);
  }

  // ----- the traversal -----

  /** Where the spelling result[i] was read from: the values, or a superior of an earlier class. */
  ghost predicate Sourced(registry: Registry, values: seq<string>, result: seq<string>, i: nat)
    requires i < |result|
  {
    result[i] in values || exists j :: 0 <= j < i && result[i] in Superiors(registry, Fold(result[j]))
  }

  /** Every name a traversal can meet; it bounds the recursion on cyclic schemas. */
  ghost function Universe(registry: Registry, values: seq<string>): set<string> {
    (set i | 0 <= i < |values| :: Fold(values[i])) +
    (set k, i | k in registry && 0 <= i < |registry[k]| :: Fold(registry[k][i]))
  }

  /** The variables the recursive closure of expandObjectClasses captures. */
  class Expansion {
    const registry: Registry
    ghost const values: seq<string>
    var seen: set<string>
    var result: seq<string>

    ghost predicate Valid()
      reads this
    {
      && (forall i :: 0 <= i < |result| ==> Fold(result[i]) in seen)
      && (forall k :: k in seen ==> exists i :: 0 <= i < |result| && Fold(result[i]) == k)
      && (forall i, j :: 0 <= i < j < |result| ==> Fold(result[i]) != Fold(result[j]))
      && (forall i :: 0 <= i < |result| ==> Sourced(registry, values, result, i))
      && (forall k :: k in seen ==> k != "" && Reachable(registry, values, k))
      && seen <= Universe(registry, values)
    }

    constructor (registry: Registry, values: seq<string>)
      ensures Valid() && seen == {} && result == [] && this.registry == registry && this.values == values
    {
      this.registry := registry;
      this.values := values;
      seen := {};
      result := [];
    }

    method Add(identifier: string)
      requires Valid()
      requires identifier in values ||
               exists j :: 0 <= j < |result| && identifier in Superiors(registry, Fold(result[j]))
      modifies this
      ensures Valid() && old(result) <= result && old(seen) <= seen
      ensures Fold(identifier) == "" || Fold(identifier) in seen
      ensures Closed(registry, seen, seen - old(seen))
      decreases Universe(registry, values) - seen
    {
      hide Fold;
      var key := Fold(identifier);
      if key == "" { return; }
      if key in seen { return; }
      assert Reachable(registry, values, key) && key in Universe(registry, values) by {
        Justify(identifier);
      }
      Visit(identifier, key);
      var superiors := Superiors(registry, key);
      ghost var mark := |result| - 1;
      assert Fold(result[mark]) == key;
      for index := 0 to |superiors|
        invariant Valid() && old(result) <= result && old(seen) + {key} <= seen
        invariant |result| > mark && result[mark] == identifier
        invariant forall i :: 0 <= i < index ==> Fold(superiors[i]) == "" || Fold(superiors[i]) in seen
        invariant Closed(registry, seen, seen - old(seen) - {key})
      {
        Add(superiors[index]);
      }
    }

    lemma Justify(identifier: string)
      requires Valid() && Fold(identifier) != ""
      requires identifier in values ||
               exists j :: 0 <= j < |result| && identifier in Superiors(registry, Fold(result[j]))
      ensures Reachable(registry, values, Fold(identifier)) && Fold(identifier) in Universe(registry, values)
    {
      hide Fold;
      if identifier in values {
        var i :| 0 <= i < |values| && values[i] == identifier;
        ReachableRoot(registry, values, i);
      } else {
        var j :| 0 <= j < |result| && identifier in Superiors(registry, Fold(result[j]));
        ReachableStep(registry, values, Fold(result[j]), Fold(identifier));
      }
    }

    method Visit(identifier: string, key: string)
      requires Valid() && key == Fold(identifier) && key !in seen && key != ""
      requires Reachable(registry, values, key) && key in Universe(registry, values)
      requires identifier in values ||
               exists j :: 0 <= j < |result| && identifier in Superiors(registry, Fold(result[j]))
      modifies this
      ensures Valid() && seen == old(seen) + {key} && result == old(result) + [identifier]
    {
      hide Fold, Reachable, Universe, Superiors;
      seen := seen + {key};
      result := result + [identifier];
      assert forall i :: 0 <= i < |old(result)| ==>
        result[i] == old(result)[i] && Sourced(registry, values, old(result), i);
      forall i | 0 <= i < |result| ensures Sourced(registry, values, result, i) {
        if i < |old(result)| {
          assert Sourced(registry, values, old(result), i);
        }
      }
      assert result[|old(result)|] == identifier;
      forall k | k in seen ensures exists i :: 0 <= i < |result| && Fold(result[i]) == k {
        if k != key {
          var i :| 0 <= i < |old(result)| && Fold(old(result)[i]) == k;
          assert Fold(result[i]) == k;
        }
      }
    }
  }

  /** The result names exactly the reachable classes, each once, each before the classes it brings in. */
  method ExpandObjectClasses(registry: Registry, values: seq<string>) returns (result: seq<string>)
    ensures forall i :: 0 <= i < |result| ==> Reachable(registry, values, Fold(result[i]))
    ensures forall k :: Reachable(registry, values, k) ==> exists i :: 0 <= i < |result| && Fold(result[i]) == k
    ensures forall i, j :: 0 <= i < j < |result| ==> Fold(result[i]) != Fold(result[j])
    ensures forall i :: 0 <= i < |result| ==> Sourced(registry, values, result, i)
  {
    hide Fold;
    var expansion := new Expansion(registry, values);
    for index := 0 to |values|
      invariant fresh(expansion) && expansion.Valid()
      invariant expansion.registry == registry && expansion.values == values
      invariant forall i :: 0 <= i < index ==> Fold(values[i]) == "" || Fold(values[i]) in expansion.seen
      invariant Closed(registry, expansion.seen, expansion.seen)
    {
      expansion.Add(values[index]);
    }
    forall k | Reachable(registry, values, k) ensures k in expansion.seen {
      var steps: nat :| ReachableIn(registry, values, k, steps);
      ReachableStays(registry, values, k, steps, expansion.seen);
    }
    result := expansion.result;
  }
}
