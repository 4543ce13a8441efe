/** Building a policy out of an unordered map of databases, and which database a target then falls to. */
module AclDatabases {
  import opened Text
  import opened AclTypes
  import opened AclNames
  import opened AclPolicy

  // ----- sorting -----

  /** Moves a database left past every shallower one. */
  function Insert(sorted: seq<DatabaseRules>, d: DatabaseRules): (r: seq<DatabaseRules>)
    ensures multiset(r) == multiset(sorted) + multiset{d}
    decreases |sorted|
  {
    var n := |sorted|;
    if n > 0 && |d.suffix| > |sorted[n - 1].suffix| then
      assert sorted == sorted[..n - 1] + [sorted[n - 1]];
      Insert(sorted[..n - 1], d) + [sorted[n - 1]]
    else sorted + [d]
  }

  function Sorted(list: seq<DatabaseRules>): (r: seq<DatabaseRules>)
    ensures multiset(r) == multiset(list)
  {
    if list == [] then []
    else
      assert list == list[..|list| - 1] + [list[|list| - 1]];
      Insert(Sorted(list[..|list| - 1]), list[|list| - 1])
  }

  /** The deepest suffix first. */
  predicate DeepestFirst(list: seq<DatabaseRules>) {
    forall i, j :: 0 <= i < j < |list| ==> |list[i].suffix| >= |list[j].suffix|
  }

  lemma {:induction false} InsertKeepsOrder(sorted: seq<DatabaseRules>, d: DatabaseRules)
    requires DeepestFirst(sorted)
    ensures DeepestFirst(Insert(sorted, d))
    ensures forall x :: x in Insert(sorted, d) ==> x in sorted || x == d
    decreases |sorted|
  {
    var n := |sorted|;
    if n > 0 && |d.suffix| > |sorted[n - 1].suffix| {
      InsertKeepsOrder(sorted[..n - 1], d);
      var front := Insert(sorted[..n - 1], d);
      forall i | 0 <= i < |front| ensures |front[i].suffix| >= |sorted[n - 1].suffix| { assert front[i] in front; }
    }
  }

  lemma {:induction false} SortedIsDeepestFirst(list: seq<DatabaseRules>)
    ensures DeepestFirst(Sorted(list))
    decreases |list|
  {
    if list != [] {
      SortedIsDeepestFirst(list[..|list| - 1]);
      InsertKeepsOrder(Sorted(list[..|list| - 1]), list[|list| - 1]);
    }
  }

  /** Inserting into the first j elements, and then the rest, is inserting into all. */
  ghost predicate Placing(s: seq<DatabaseRules>, d: DatabaseRules, j: nat) {
    j <= |s| && Insert(s[..j], d) + s[j..] == Insert(s, d)
  }

  lemma PlacingStart(s: seq<DatabaseRules>, d: DatabaseRules)
    ensures Placing(s, d, |s|)
  {
    assert s[..|s|] == s && s[|s|..] == [] && Insert(s, d) + [] == Insert(s, d);
  }

  lemma PlacingStep(s: seq<DatabaseRules>, d: DatabaseRules, j: nat)
    requires Placing(s, d, j) && j > 0 && |d.suffix| > |s[j - 1].suffix|
    ensures Placing(s, d, j - 1)
  {
    assert s[..j][..j - 1] == s[..j - 1];
    assert [s[j - 1]] + s[j..] == s[j - 1..];
    assert Insert(s[..j], d) == Insert(s[..j - 1], d) + [s[j - 1]];
  }

  lemma PlacingEnd(s: seq<DatabaseRules>, d: DatabaseRules, j: nat)
    requires Placing(s, d, j) && (j > 0 ==> |d.suffix| <= |s[j - 1].suffix|)
    ensures Insert(s, d) == s[..j] + [d] + s[j..]
  {
  }

  /** Element i of the old contents has moved left to place j, the elements it passed one place right. */
  ghost predicate Moved(all: seq<DatabaseRules>, was: seq<DatabaseRules>, i: nat, j: nat) {
    j <= i < |was| == |all| && all[j] == was[i] &&
    (forall k :: 0 <= k < j ==> all[k] == was[k]) &&
    (forall k :: j < k <= i ==> all[k] == was[k - 1]) &&
    (forall k :: i < k < |was| ==> all[k] == was[k])
  }

  lemma MovedStep(all: seq<DatabaseRules>, next: seq<DatabaseRules>, was: seq<DatabaseRules>, i: nat, j: nat)
    requires Moved(all, was, i, j) && 0 < j < |all| == |next| && next[j] == all[j - 1] && next[j - 1] == all[j]
    requires forall k :: 0 <= k < |all| && k != j && k != j - 1 ==> next[k] == all[k]
    ensures Moved(next, was, i, j - 1)
  {
  }

  lemma MovedNeighbours(all: seq<DatabaseRules>, was: seq<DatabaseRules>, i: nat, j: nat)
    requires Moved(all, was, i, j)
    ensures all[j] == was[i] && (j > 0 ==> all[j - 1] == was[..i][j - 1])
  {
  }

  lemma MovedMeans(all: seq<DatabaseRules>, was: seq<DatabaseRules>, i: nat, j: nat)
    requires Moved(all, was, i, j)
    ensures all[..i + 1] == was[..i][..j] + [was[i]] + was[..i][j..] && all[i + 1..] == was[i + 1..]
  {
  }

  lemma NextTail(a: seq<DatabaseRules>, b: seq<DatabaseRules>, i: nat)
    requires |a| == |b| && i < |a| && a[i..] == b[i..]
    ensures a[i] == b[i] && a[i + 1..] == b[i + 1..]
  {
    assert a[i] == a[i..][0] && b[i] == b[i..][0];
    assert a[i + 1..] == a[i..][1..] && b[i + 1..] == b[i..][1..];
  }

  lemma WholeSlice(a: seq<DatabaseRules>)
    ensures a[..|a|] == a && a[0..] == a
  {
  }

  /** The inner loop of sortDatabases: swaps element i with its left neighbour while it is deeper. */
  method Bubble(databases: array<DatabaseRules>, i: nat) returns (j: nat)
    requires i < databases.Length
    modifies databases
    ensures var was := old(databases[..]);
            Moved(databases[..], was, i, j) && Placing(was[..i], was[i], j) &&
            (j > 0 ==> |was[i].suffix| <= |was[..i][j - 1].suffix|)
  {
    ghost var was := databases[..];
    ghost var now := was;
    j := i;
    PlacingStart(was[..i], was[i]);
    assert Moved(now, was, i, j);
    hide Placing, Moved;
    while j > 0 && |databases[j].suffix| > |databases[j - 1].suffix|
      invariant 0 <= j <= i && now == databases[..] && Moved(now, was, i, j) && Placing(was[..i], was[i], j)
    {
      MovedNeighbours(now, was, i, j);
      PlacingStep(was[..i], was[i], j);
      databases[j], databases[j - 1] := databases[j - 1], databases[j];
      MovedStep(now, databases[..], was, i, j);
      now := databases[..];
      j := j - 1;
    }
    MovedNeighbours(now, was, i, j);
  }

  /** Element i moves left to its place among the sorted elements before it. */
  method MoveLeft(databases: array<DatabaseRules>, i: nat)
    requires i < databases.Length
    modifies databases
    ensures databases[..][..i + 1] == Insert(old(databases[..])[..i], old(databases[..])[i])
    ensures databases[..][i + 1..] == old(databases[..])[i + 1..]
  {
    ghost var was := databases[..];
    var j := Bubble(databases, i);
    hide Placing, Moved, Insert;
    MovedMeans(databases[..], was, i, j);
    PlacingEnd(was[..i], was[i], j);
  }

  lemma SortedStep(list: seq<DatabaseRules>, i: nat)
    requires i < |list|
    ensures Sorted(list[..i + 1]) == Insert(Sorted(list[..i]), list[i])
  {
    hide Insert;
    assert list[..i + 1][..i] == list[..i];
  }

  /** sortDatabases. */
  method SortDatabases(databases: array<DatabaseRules>)
    modifies databases
    ensures databases[..] == Sorted(old(databases[..]))
  {
    ghost var was := databases[..];
    var i := 0;
    if databases.Length > 0 {
      SortedStep(was, 0);
      assert was[..0] == [] && was[..1] == [was[0]];
      i := 1;
    }
    hide Insert, Sorted;
    while i < databases.Length
      invariant 0 <= i <= databases.Length && (i == 0 ==> databases.Length == 0)
      invariant databases[..][..i] == Sorted(was[..i]) && databases[..][i..] == was[i..]
    {
      SortedStep(was, i);
      NextTail(databases[..], was, i);
      MoveLeft(databases, i);
      i := i + 1;
    }
    WholeSlice(databases[..]);
    WholeSlice(was);
    EmptySorted();
  }

  lemma EmptySorted()
    ensures Sorted([]) == []
  {
  }

  // ----- the database a target falls to -----

  /** The deepest database of which something holds; the earliest of equally deep ones. */
  function Deepest(list: seq<DatabaseRules>, holds: DatabaseRules -> bool): (best: Option<DatabaseRules>)
    ensures best.None? <==> forall d :: d in list ==> !holds(d)
    ensures best.Some? ==> best.value in list && holds(best.value)
    ensures best.Some? ==> forall d :: d in list && holds(d) ==> |d.suffix| <= |best.value.suffix|
  {
    if list == [] then None
    else
      var front, last := list[..|list| - 1], list[|list| - 1];
      assert list == front + [last];
      var best := Deepest(front, holds);
      if holds(last) && (best.None? || |last.suffix| > |best.value.suffix|) then Some(last) else best
  }

  function RulesOf(choice: Option<DatabaseRules>): seq<Rule> { if choice.None? then [] else choice.value.rules }

  /** The first database of a list of which something holds. */
  function First(list: seq<DatabaseRules>, holds: DatabaseRules -> bool): Option<DatabaseRules> {
    if list == [] then None else if holds(list[0]) then Some(list[0]) else First(list[1..], holds)
  }

  lemma {:induction false} FirstAppend(list: seq<DatabaseRules>, d: DatabaseRules, holds: DatabaseRules -> bool)
    ensures First(list + [d], holds) ==
            if First(list, holds).Some? then First(list, holds) else if holds(d) then Some(d) else None
  {
    if list == [] {
      assert list + [d] == [d];
    } else {
      assert (list + [d])[1..] == list[1..] + [d];
      FirstAppend(list[1..], d, holds);
    }
  }

  lemma {:induction false} FirstInsert(sorted: seq<DatabaseRules>, d: DatabaseRules, holds: DatabaseRules -> bool)
    requires DeepestFirst(sorted)
    ensures var first := First(sorted, holds);
            First(Insert(sorted, d), holds) ==
            if holds(d) && (first.None? || |d.suffix| > |first.value.suffix|) then Some(d) else first
    ensures First(sorted, holds).Some? ==> First(sorted, holds).value in sorted
    decreases |sorted|
  {
    var n := |sorted|;
    FirstIn(sorted, holds);
    if n > 0 && |d.suffix| > |sorted[n - 1].suffix| {
      var front, last := sorted[..n - 1], sorted[n - 1];
      FirstInsert(front, d, holds);
      FirstIn(front, holds);
      assert sorted == front + [last];
      FirstAppend(front, last, holds);
      FirstAppend(Insert(front, d), last, holds);
      hide First;
    } else {
      FirstAppend(sorted, d, holds);
      hide First;
    }
  }

  lemma {:induction false} FirstIn(list: seq<DatabaseRules>, holds: DatabaseRules -> bool)
    ensures First(list, holds).Some? ==> First(list, holds).value in list
  {
    if list != [] { FirstIn(list[1..], holds); }
  }

  /** Sorting and taking the first match finds the deepest match, ties going to the earliest in the list. */
  lemma {:induction false} SortedFindsDeepest(list: seq<DatabaseRules>, holds: DatabaseRules -> bool)
    ensures First(Sorted(list), holds) == Deepest(list, holds)
    decreases |list|
  {
    if list != [] {
      var n := |list| - 1;
      SortedFindsDeepest(list[..n], holds);
      SortedIsDeepestFirst(list[..n]);
      FirstInsert(Sorted(list[..n]), list[n], holds);
      hide First, Insert;
    }
  }

  /** Covering a target, as the request reads the suffixes. */
  function Covering(services: Services, target: DN, normalizer: bool): DatabaseRules -> bool {
    (d: DatabaseRules) => Covers(services, d, target, normalizer)
  }

  lemma {:induction false} DatabaseForIsFirst(services: Services, list: seq<DatabaseRules>, target: DN,
                                              normalizer: bool)
    ensures DatabaseFor(services, list, target, normalizer) ==
            RulesOf(First(list, Covering(services, target, normalizer)))
  {
    if list != [] {
      DatabaseForIsFirst(services, list[1..], target, normalizer);
      hide Covers;
    }
  }

  /** The loop of rulesFor over the sorted databases finds the deepest one that covers the target. */
  lemma DeepestIsFound(services: Services, list: seq<DatabaseRules>, target: DN, normalizer: bool)
    ensures DatabaseFor(services, Sorted(list), target, normalizer) ==
            RulesOf(Deepest(list, Covering(services, target, normalizer)))
  {
    hide Sorted, Deepest, First, Covering, DatabaseFor;
    DatabaseForIsFirst(services, Sorted(list), target, normalizer);
    SortedFindsDeepest(list, Covering(services, target, normalizer));
  }

  // ----- independence of the order -----

  /** None that is deeper holds. */
  ghost predicate NoneDeeper(list: seq<DatabaseRules>, holds: DatabaseRules -> bool, depth: nat) {
    forall c :: c in list && holds(c) ==> |c.suffix| <= depth
  }

  /** The deepest matches have the same rules. */
  ghost predicate DeepestAgree(list: seq<DatabaseRules>, holds: DatabaseRules -> bool) {
    forall a, b ::
      (a in list && b in list && holds(a) && holds(b) && |a.suffix| == |b.suffix| &&
       NoneDeeper(list, holds, |a.suffix|)) ==> a.rules == b.rules
  }

  /** The same databases in another order give the same rules. */
  lemma DeepestSame(a: seq<DatabaseRules>, b: seq<DatabaseRules>, holds: DatabaseRules -> bool)
    requires (forall d :: d in a <==> d in b) && DeepestAgree(a, holds)
    ensures RulesOf(Deepest(a, holds)) == RulesOf(Deepest(b, holds))
  {
    hide Deepest;
    var x, y := Deepest(a, holds), Deepest(b, holds);
    if x.Some? && y.Some? { assert NoneDeeper(a, holds, |x.value.suffix|); }
  }

  lemma {:induction false} DeepestOfFront(front: DatabaseRules, rest: seq<DatabaseRules>,
                                          holds: DatabaseRules -> bool)
    requires holds(front) && NoneDeeper(rest, holds, |front.suffix|)
    ensures Deepest([front] + rest, holds) == Some(front)
    decreases |rest|
  {
    var list := [front] + rest;
    if rest == [] {
      assert list[..|list| - 1] == [];
    } else {
      assert list[..|list| - 1] == [front] + rest[..|rest| - 1];
      DeepestOfFront(front, rest[..|rest| - 1], holds);
    }
  }

  lemma MovedToFront(list: seq<DatabaseRules>, d: DatabaseRules) returns (rest: seq<DatabaseRules>)
    requires d in list
    ensures multiset([d] + rest) == multiset(list)
  {
    var i :| 0 <= i < |list| && list[i] == d;
    rest := list[..i] + list[i + 1..];
    assert list == list[..i] + [d] + list[i + 1..];
  }

  // ----- without a normalizer, for any list -----

  /** Without a normalizer a suffix is compared as it was parsed. */
  predicate Within(d: DatabaseRules, target: DN) { d.suffix == target || AncestorOf(d.suffix, target) }

  function Holding(target: DN): DatabaseRules -> bool { (d: DatabaseRules) => Within(d, target) }

  /** Databases with the same suffix have the same rules. */
  predicate Consistent(list: seq<DatabaseRules>) {
    forall a, b :: a in list && b in list && a.suffix == b.suffix ==> a.rules == b.rules
  }

  /** Whatever order the databases were met in, every target gets the same rules. */
  ghost predicate OrderFree(list: seq<DatabaseRules>) {
    forall other, target :: multiset(other) == multiset(list) ==>
      RulesOf(First(Sorted(other), Holding(target))) == RulesOf(First(Sorted(list), Holding(target)))
  }

  lemma ConsistentIsOrderFree(list: seq<DatabaseRules>)
    requires Consistent(list)
    ensures OrderFree(list)
  {
    hide First, Sorted, Deepest;
    forall other: seq<DatabaseRules>, target: DN | multiset(other) == multiset(list)
      ensures RulesOf(First(Sorted(other), Holding(target))) == RulesOf(First(Sorted(list), Holding(target)))
    {
      SortedFindsDeepest(other, Holding(target));
      SortedFindsDeepest(list, Holding(target));
      assert forall d :: d in other <==> d in multiset(other);
      assert forall d :: d in list <==> d in multiset(list);
      ConsistentAgree(list, target);
      DeepestSame(list, other, Holding(target));
    }
  }

  lemma ConsistentAgree(list: seq<DatabaseRules>, target: DN)
    requires Consistent(list)
    ensures DeepestAgree(list, Holding(target))
  {
    forall a, b | Within(a, target) && Within(b, target) && |a.suffix| == |b.suffix| ensures a.suffix == b.suffix {
      assert a.suffix == target[|target| - |a.suffix|..] && b.suffix == target[|target| - |b.suffix|..];
    }
    hide Within;
  }

  lemma OrderFreeAt(list: seq<DatabaseRules>, other: seq<DatabaseRules>, target: DN)
    requires OrderFree(list) && multiset(other) == multiset(list)
    ensures RulesOf(First(Sorted(other), Holding(target))) == RulesOf(First(Sorted(list), Holding(target)))
  {
    hide First, Sorted;
  }

  /** In an order-free list the database moved to the front decides for its own suffix. */
  lemma FrontDecides(list: seq<DatabaseRules>, d: DatabaseRules)
    requires OrderFree(list) && d in list
    ensures d.rules == RulesOf(First(Sorted(list), Holding(d.suffix)))
  {
    hide First, Sorted, Deepest, OrderFree;
    var rest := MovedToFront(list, d);
    var moved := [d] + rest;
    SortedFindsDeepest(moved, Holding(d.suffix));
    DeepestOfFront(d, rest, Holding(d.suffix));
    OrderFreeAt(list, moved, d.suffix);
  }

  /** The order of a list of databases is irrelevant exactly when equal suffixes have equal rules. */
  lemma OrderFreeIffConsistent(list: seq<DatabaseRules>)
    ensures OrderFree(list) <==> Consistent(list)
  {
    if Consistent(list) { ConsistentIsOrderFree(list); }
    if OrderFree(list) {
      hide OrderFree;
      forall a, b | a in list && b in list && a.suffix == b.suffix ensures a.rules == b.rules {
        FrontDecides(list, a);
        FrontDecides(list, b);
      }
    }
  }

  // ----- building a policy -----

  function InsertRule(sorted: seq<Rule>, rule: Rule): (r: seq<Rule>)
    ensures multiset(r) == multiset(sorted) + multiset{rule}
    decreases |sorted|
  {
    var n := |sorted|;
    if n > 0 && rule.order < sorted[n - 1].order then
      assert sorted == sorted[..n - 1] + [sorted[n - 1]];
      InsertRule(sorted[..n - 1], rule) + [sorted[n - 1]]
    else sorted + [rule]
  }

  /** SortRules: a stable sort by order number. */
  function SortRules(rules: seq<Rule>): (r: seq<Rule>)
    ensures multiset(r) == multiset(rules)
  {
    if rules == [] then []
    else
      assert rules == rules[..|rules| - 1] + [rules[|rules| - 1]];
      InsertRule(SortRules(rules[..|rules| - 1]), rules[|rules| - 1])
  }

  /** What the configuration says of each suffix: its rules, and whether adding needs content access. */
  type Configured = map<string, (seq<Rule>, bool)>

  function DatabaseOf(services: Services, databases: Configured, suffix: string): DatabaseRules
    requires suffix in databases && services.parseDN(suffix, false).Some?
  {
    DatabaseRules(services.parseDN(suffix, false).value, SortRules(databases[suffix].0), databases[suffix].1)
  }

  ghost predicate Parses(services: Services, databases: Configured) {
    forall suffix :: suffix in databases ==> services.parseDN(suffix, false).Some?
  }

  /** Every suffix once. */
  ghost predicate Enumerates(order: seq<string>, suffixes: set<string>) { multiset(order) == multiset(suffixes) }

  lemma EnumeratesAll(order: seq<string>, suffixes: set<string>)
    requires Enumerates(order, suffixes)
    ensures forall suffix :: suffix in order <==> suffix in suffixes
  {
    assert forall suffix :: suffix in order <==> suffix in multiset(order);
  }

  /** The databases in the order their suffixes were met. */
  ghost function Met(services: Services, databases: Configured, order: seq<string>): (list: seq<DatabaseRules>)
    requires Parses(services, databases) && Enumerates(order, databases.Keys)
    ensures |list| == |order|
    ensures forall i :: 0 <= i < |list| ==> order[i] in databases && list[i] == DatabaseOf(services, databases, order[i])
  {
    EnumeratesAll(order, databases.Keys);
    seq(|order|, i requires 0 <= i < |order| => DatabaseOf(services, databases, order[i]))
  }

  ghost function Built(services: Services, global: seq<Rule>, databases: Configured, order: seq<string>): Policy
    requires Parses(services, databases) && Enumerates(order, databases.Keys)
  {
    Policy(SortRules(global), Sorted(Met(services, databases, order)))
  }

  /** The loop of newPolicy: the map is iterated in any order whatever. */
  method GatherDatabases(services: Services, databases: Configured)
    returns (list: Option<seq<DatabaseRules>>, ghost order: seq<string>)
    ensures list.Some? <==> Parses(services, databases)
    ensures list.Some? ==> Enumerates(order, databases.Keys) && |list.value| == |order|
    ensures list.Some? ==> forall i :: 0 <= i < |order| ==>
              order[i] in databases && list.value[i] == DatabaseOf(services, databases, order[i])
  {
    var found: seq<DatabaseRules> := [];
    order := [];
    var remaining := databases.Keys;
    hide SortRules;
    while remaining != {}
      invariant remaining <= databases.Keys
      invariant multiset(order) + multiset(remaining) == multiset(databases.Keys)
      invariant |found| == |order|
      invariant forall i :: 0 <= i < |found| ==>
                  order[i] in databases && services.parseDN(order[i], false).Some? &&
                  found[i] == DatabaseOf(services, databases, order[i])
      invariant forall suffix :: suffix in databases.Keys - remaining ==> services.parseDN(suffix, false).Some?
      decreases |remaining|
    {
      var suffix :| suffix in remaining;
      var dn := services.parseDN(suffix, false);
      if dn.None? {
        assert suffix in databases;
        return None, order;
      }
      found := found + [DatabaseRules(dn.value, SortRules(databases[suffix].0), databases[suffix].1)];
      Removed(order, remaining, suffix, databases.Keys);
      remaining := remaining - {suffix};
      order := order + [suffix];
    }
    assert multiset(remaining) == multiset{};
    list := Some(found);
  }

  lemma Removed(order: seq<string>, remaining: set<string>, suffix: string, all: set<string>)
    requires suffix in remaining && multiset(order) + multiset(remaining) == multiset(all)
    ensures multiset(order + [suffix]) + multiset(remaining - {suffix}) == multiset(all)
  {
    assert multiset(remaining) == multiset(remaining - {suffix}) + multiset{suffix};
  }

  /** newPolicy. */
  method NewPolicy(services: Services, global: seq<Rule>, databases: Configured)
    returns (policy: Option<Policy>, ghost order: seq<string>)
    ensures policy.Some? <==> Parses(services, databases)
    ensures policy.Some? ==> Enumerates(order, databases.Keys) &&
                             policy.value == Built(services, global, databases, order)
  {
    hide SortRules, Sorted, Enumerates;
    var sortedGlobal := SortRules(global);
    var list;
    list, order := GatherDatabases(services, databases);
    if list.None? { return None, order; }
    var found := list.value;
    var sorting := new DatabaseRules[|found|](i requires 0 <= i < |found| => found[i]);
    assert sorting[..] == found;
    SortDatabases(sorting);
    assert found == Met(services, databases, order);
    policy := Some(Policy(sortedGlobal, sorting[..]));
  }

  /** Suffixes naming the same DN have the same rules; always so when no two suffixes name the same DN. */
  ghost predicate AgreeingSuffixes(services: Services, databases: Configured) {
    forall a, b :: a in databases && b in databases && services.parseDN(a, false) == services.parseDN(b, false) ==>
      SortRules(databases[a].0) == SortRules(databases[b].0)
  }

  /** The database of some configured suffix. */
  ghost predicate Describes(services: Services, databases: Configured, d: DatabaseRules) {
    exists suffix :: suffix in databases && services.parseDN(suffix, false).Some? &&
                     d == DatabaseOf(services, databases, suffix)
  }

  lemma MetIs(services: Services, databases: Configured, order: seq<string>)
    requires Parses(services, databases) && Enumerates(order, databases.Keys)
    ensures forall d :: d in Met(services, databases, order) <==> Describes(services, databases, d)
  {
    EnumeratesAll(order, databases.Keys);
    var list := Met(services, databases, order);
    hide DatabaseOf, Enumerates, Met;
    forall d | Describes(services, databases, d) ensures d in list {
      var suffix :| suffix in databases && d == DatabaseOf(services, databases, suffix);
      var i :| 0 <= i < |order| && order[i] == suffix;
      assert list[i] == d;
    }
    forall d | d in list ensures Describes(services, databases, d) {
      var i :| 0 <= i < |list| && list[i] == d;
      assert order[i] in databases;
    }
  }

  // ----- exactly when the order of the map is irrelevant -----

  /** Two equally deep suffixes, the reading of one of which is covered by the other. */
  predicate Rivals(services: Services, a: DatabaseRules, b: DatabaseRules, normalizer: bool) {
    |a.suffix| == |b.suffix| && NormalizeDN(services, a.suffix, normalizer).Some? &&
    Covers(services, b, NormalizeDN(services, a.suffix, normalizer).value, normalizer)
  }

  /** A deeper suffix covers what this one reads as. */
  predicate Overrules(services: Services, c: DatabaseRules, a: DatabaseRules, normalizer: bool) {
    |c.suffix| > |a.suffix| && NormalizeDN(services, a.suffix, normalizer).Some? &&
    Covers(services, c, NormalizeDN(services, a.suffix, normalizer).value, normalizer)
  }

  /** Rivals have the same rules, unless a deeper suffix comes before both. Depth is that of the suffixes as parsed. */
  ghost predicate Unambiguous(services: Services, databases: Configured, normalizer: bool)
    requires Parses(services, databases)
  {
    forall a, b :: a in databases && b in databases ==>
      var x, y := DatabaseOf(services, databases, a), DatabaseOf(services, databases, b);
      Rivals(services, x, y, normalizer) && x.rules != y.rules ==>
      exists c :: c in databases && Overrules(services, DatabaseOf(services, databases, c), x, normalizer)
  }

  lemma Reading(services: Services, a: DatabaseRules, b: DatabaseRules, target: DN, normalizer: bool)
    requires Covers(services, a, target, normalizer) && Covers(services, b, target, normalizer)
    ensures var x := NormalizeDN(services, a.suffix, normalizer).value;
            var y := NormalizeDN(services, b.suffix, normalizer).value;
            if |x| >= |y| then Covers(services, b, x, normalizer) else Covers(services, a, y, normalizer)
  {
    var x, y := NormalizeDN(services, a.suffix, normalizer).value, NormalizeDN(services, b.suffix, normalizer).value;
    assert x == target[|target| - |x|..] && y == target[|target| - |y|..];
    if |x| >= |y| { assert y == x[|x| - |y|..]; } else { assert x == y[|y| - |x|..]; }
  }

  lemma CoversFurther(services: Services, c: DatabaseRules, a: DatabaseRules, target: DN, normalizer: bool)
    requires Covers(services, a, target, normalizer)
    requires Covers(services, c, NormalizeDN(services, a.suffix, normalizer).value, normalizer)
    ensures Covers(services, c, target, normalizer)
  {
    var x, z := NormalizeDN(services, a.suffix, normalizer).value, NormalizeDN(services, c.suffix, normalizer).value;
    assert x == target[|target| - |x|..] && z == x[|x| - |z|..];
    assert z == target[|target| - |z|..];
  }

  /** Two equally deep databases that cover a target no deeper one covers have the same rules. */
  lemma RivalsAgree(services: Services, databases: Configured, a: string, b: string, target: DN, normalizer: bool)
    requires Parses(services, databases) && Unambiguous(services, databases, normalizer)
    requires a in databases && b in databases
    requires var x, y := DatabaseOf(services, databases, a), DatabaseOf(services, databases, b);
             |x.suffix| == |y.suffix| && Covers(services, x, target, normalizer) &&
             Covers(services, y, target, normalizer) &&
             forall c :: c in databases && Covers(services, DatabaseOf(services, databases, c), target, normalizer) ==>
               |DatabaseOf(services, databases, c).suffix| <= |x.suffix|
    ensures DatabaseOf(services, databases, a).rules == DatabaseOf(services, databases, b).rules
  {
    var x, y := DatabaseOf(services, databases, a), DatabaseOf(services, databases, b);
    Reading(services, x, y, target, normalizer);
    assert NormalizeDN(services, x.suffix, normalizer).Some? && NormalizeDN(services, y.suffix, normalizer).Some?;
    assert Rivals(services, x, y, normalizer) || Rivals(services, y, x, normalizer);
    forall c | c in databases
      ensures !Overrules(services, DatabaseOf(services, databases, c), x, normalizer)
      ensures !Overrules(services, DatabaseOf(services, databases, c), y, normalizer)
    {
      var z := DatabaseOf(services, databases, c);
      if Overrules(services, z, x, normalizer) { CoversFurther(services, z, x, target, normalizer); }
      if Overrules(services, z, y, normalizer) { CoversFurther(services, z, y, target, normalizer); }
    }
    hide Rivals, Overrules, Covers, DatabaseOf, NormalizeDN;
  }

  lemma UnambiguousAgree(services: Services, databases: Configured, order: seq<string>, target: DN, normalizer: bool)
    requires Parses(services, databases) && Enumerates(order, databases.Keys)
    requires Unambiguous(services, databases, normalizer)
    ensures DeepestAgree(Met(services, databases, order), Covering(services, target, normalizer))
  {
    MetIs(services, databases, order);
    var list, holds := Met(services, databases, order), Covering(services, target, normalizer);
    hide Met, DatabaseOf, Unambiguous, Enumerates, Covers;
    forall x, y | x in list && y in list && holds(x) && holds(y) && |x.suffix| == |y.suffix| &&
                  NoneDeeper(list, holds, |x.suffix|)
      ensures x.rules == y.rules
    {
      assert Describes(services, databases, x) && Describes(services, databases, y);
      var a :| a in databases && x == DatabaseOf(services, databases, a);
      var b :| b in databases && y == DatabaseOf(services, databases, b);
      forall c | c in databases ensures DatabaseOf(services, databases, c) in list {
        assert Describes(services, databases, DatabaseOf(services, databases, c));
      }
      RivalsAgree(services, databases, a, b, target, normalizer);
    }
  }

  /** The rules a request gets do not depend on the order of the map, with a normalizer or without. */
  lemma RulesOrderIrrelevantUnder(services: Services, global: seq<Rule>, databases: Configured, a: seq<string>,
                                  b: seq<string>, target: DN, normalizer: bool)
    requires Parses(services, databases) && Unambiguous(services, databases, normalizer)
    requires Enumerates(a, databases.Keys) && Enumerates(b, databases.Keys)
    ensures RulesFor(services, Built(services, global, databases, a), target, normalizer) ==
            RulesFor(services, Built(services, global, databases, b), target, normalizer)
  {
    MetIs(services, databases, a);
    MetIs(services, databases, b);
    UnambiguousAgree(services, databases, a, target, normalizer);
    hide Unambiguous, SortRules, Sorted, Deepest, DatabaseFor, Parses, Enumerates, Met, Describes, DeepestAgree,
         Covering;
    var listA, listB := Met(services, databases, a), Met(services, databases, b);
    DeepestIsFound(services, listA, target, normalizer);
    DeepestIsFound(services, listB, target, normalizer);
    DeepestSame(listA, listB, Covering(services, target, normalizer));
  }

  // ----- and only then -----

  lemma Enumeration(suffixes: set<string>) returns (order: seq<string>)
    ensures Enumerates(order, suffixes)
  {
    order := [];
    var remaining := suffixes;
    while remaining != {}
      invariant remaining <= suffixes && multiset(order) + multiset(remaining) == multiset(suffixes)
      decreases remaining
    {
      var suffix :| suffix in remaining;
      Removed(order, remaining, suffix, suffixes);
      remaining := remaining - {suffix};
      order := order + [suffix];
    }
    assert multiset(remaining) == multiset{};
  }

  lemma EnumerationFrom(suffixes: set<string>, first: string) returns (order: seq<string>)
    requires first in suffixes
    ensures Enumerates(order, suffixes) && order != [] && order[0] == first
  {
    var rest := Enumeration(suffixes - {first});
    order := [first] + rest;
    assert multiset(suffixes) == multiset(suffixes - {first}) + multiset{first};
  }

  /** The database met first decides for a target it covers and no deeper one does. */
  lemma FirstMetDecides(services: Services, list: seq<DatabaseRules>, target: DN, normalizer: bool)
    requires list != [] && Covers(services, list[0], target, normalizer)
    requires forall c :: c in list && Covers(services, c, target, normalizer) ==> |c.suffix| <= |list[0].suffix|
    ensures DatabaseFor(services, Sorted(list), target, normalizer) == list[0].rules
  {
    assert list == [list[0]] + list[1..];
    hide Sorted, Deepest, DatabaseFor, Covers;
    DeepestOfFront(list[0], list[1..], Covering(services, target, normalizer));
    DeepestIsFound(services, list, target, normalizer);
  }

  /** Met first, a suffix decides for a target it covers and no deeper one does. */
  lemma MetFirstDecides(services: Services, global: seq<Rule>, databases: Configured, suffix: string, target: DN,
                        normalizer: bool)
    returns (order: seq<string>)
    requires Parses(services, databases) && suffix in databases
    requires var d := DatabaseOf(services, databases, suffix);
             Covers(services, d, target, normalizer) &&
             forall c :: c in databases && Covers(services, DatabaseOf(services, databases, c), target, normalizer) ==>
               |DatabaseOf(services, databases, c).suffix| <= |d.suffix|
    ensures Enumerates(order, databases.Keys)
    ensures RulesFor(services, Built(services, global, databases, order), target, normalizer) ==
            DatabaseOf(services, databases, suffix).rules + SortRules(global)
  {
    hide Enumerates, Met, Sorted, DatabaseFor, SortRules, Covers, DatabaseOf;
    order := EnumerationFrom(databases.Keys, suffix);
    var list := Met(services, databases, order);
    assert list[0] == DatabaseOf(services, databases, suffix);
    forall c | c in list && Covers(services, c, target, normalizer) ensures |c.suffix| <= |list[0].suffix| {
      var i :| 0 <= i < |list| && list[i] == c;
      assert order[i] in databases && c == DatabaseOf(services, databases, order[i]);
    }
    FirstMetDecides(services, list, target, normalizer);
  }

  /** Two enumerations of the map give every target the same rules. */
  ghost predicate MapOrderFree(services: Services, global: seq<Rule>, databases: Configured, normalizer: bool)
    requires Parses(services, databases)
  {
    forall a, b, target :: Enumerates(a, databases.Keys) && Enumerates(b, databases.Keys) ==>
      RulesFor(services, Built(services, global, databases, a), target, normalizer) ==
      RulesFor(services, Built(services, global, databases, b), target, normalizer)
  }

  lemma SameFront(a: seq<Rule>, b: seq<Rule>, c: seq<Rule>)
    requires a + c == b + c
    ensures a == b
  {
    assert |a| == |b|;
    assert a == (a + c)[..|a|] && b == (b + c)[..|b|];
  }

  lemma MapOrderFreeAt(services: Services, global: seq<Rule>, databases: Configured, a: seq<string>, b: seq<string>,
                       target: DN, normalizer: bool)
    requires Parses(services, databases) && MapOrderFree(services, global, databases, normalizer)
    requires Enumerates(a, databases.Keys) && Enumerates(b, databases.Keys)
    ensures RulesFor(services, Built(services, global, databases, a), target, normalizer) ==
            RulesFor(services, Built(services, global, databases, b), target, normalizer)
  {
    hide RulesFor, Built, Enumerates, Parses;
  }

  /** Rivals that nothing overrules decide for the reading of the one, each when it is met first. */
  lemma OrderFreeRivals(services: Services, global: seq<Rule>, databases: Configured, a: string, b: string,
                        normalizer: bool)
    requires Parses(services, databases) && MapOrderFree(services, global, databases, normalizer)
    requires a in databases && b in databases
    requires var x, y := DatabaseOf(services, databases, a), DatabaseOf(services, databases, b);
             Rivals(services, x, y, normalizer) &&
             forall c :: c in databases ==> !Overrules(services, DatabaseOf(services, databases, c), x, normalizer)
    ensures DatabaseOf(services, databases, a).rules == DatabaseOf(services, databases, b).rules
  {
    var x, y := DatabaseOf(services, databases, a), DatabaseOf(services, databases, b);
    var target := NormalizeDN(services, x.suffix, normalizer).value;
    assert Covers(services, x, target, normalizer);
    forall c | c in databases && Covers(services, DatabaseOf(services, databases, c), target, normalizer)
      ensures |DatabaseOf(services, databases, c).suffix| <= |x.suffix|
    {
      assert !Overrules(services, DatabaseOf(services, databases, c), x, normalizer);
    }
    hide Covers, DatabaseOf, MapOrderFree, RulesFor, Built, Enumerates, SortRules, Parses, NormalizeDN, Overrules;
    var first := MetFirstDecides(services, global, databases, a, target, normalizer);
    var second := MetFirstDecides(services, global, databases, b, target, normalizer);
    MapOrderFreeAt(services, global, databases, first, second, target, normalizer);
    SameFront(x.rules, y.rules, SortRules(global));
  }

  lemma UnambiguousIsOrderFree(services: Services, global: seq<Rule>, databases: Configured, normalizer: bool)
    requires Parses(services, databases) && Unambiguous(services, databases, normalizer)
    ensures MapOrderFree(services, global, databases, normalizer)
  {
    hide RulesFor, Built, Enumerates, Unambiguous;
    forall a, b, target: DN | Enumerates(a, databases.Keys) && Enumerates(b, databases.Keys)
      ensures RulesFor(services, Built(services, global, databases, a), target, normalizer) ==
              RulesFor(services, Built(services, global, databases, b), target, normalizer)
    {
      RulesOrderIrrelevantUnder(services, global, databases, a, b, target, normalizer);
    }
  }

  lemma OrderFreeIsUnambiguous(services: Services, global: seq<Rule>, databases: Configured, normalizer: bool)
    requires Parses(services, databases) && MapOrderFree(services, global, databases, normalizer)
    ensures Unambiguous(services, databases, normalizer)
  {
    hide MapOrderFree, DatabaseOf, Rivals, Overrules, NormalizeDN;
    forall a, b | a in databases && b in databases
      ensures var x, y := DatabaseOf(services, databases, a), DatabaseOf(services, databases, b);
              Rivals(services, x, y, normalizer) && x.rules != y.rules ==>
              exists c :: c in databases && Overrules(services, DatabaseOf(services, databases, c), x, normalizer)
    {
      var x, y := DatabaseOf(services, databases, a), DatabaseOf(services, databases, b);
      if Rivals(services, x, y, normalizer) &&
         forall c :: c in databases ==> !Overrules(services, DatabaseOf(services, databases, c), x, normalizer)
      {
        OrderFreeRivals(services, global, databases, a, b, normalizer);
      }
    }
  }

  /**
   * With a normalizer or without, the order in which the map is met is irrelevant to every target exactly when
   * equally deep suffixes of which one covers the other have the same rules, unless a deeper suffix comes before both.
   */
  lemma MapOrderFreeExactly(services: Services, global: seq<Rule>, databases: Configured, normalizer: bool)
    requires Parses(services, databases)
    ensures MapOrderFree(services, global, databases, normalizer) <==> Unambiguous(services, databases, normalizer)
  {
    hide MapOrderFree, Unambiguous;
    if Unambiguous(services, databases, normalizer) {
      UnambiguousIsOrderFree(services, global, databases, normalizer);
    }
    if MapOrderFree(services, global, databases, normalizer) {
      OrderFreeIsUnambiguous(services, global, databases, normalizer);
    }
  }

  // ----- without a normalizer -----

  /** As parsed, equally deep suffixes are rivals only when they are the same, and nothing overrules them. */
  lemma AsParsed(services: Services, a: DatabaseRules, b: DatabaseRules)
    ensures Rivals(services, a, b, false) <==> a.suffix == b.suffix
    ensures !Overrules(services, b, a, false)
  {
  }

  lemma UnambiguousAsParsed(services: Services, databases: Configured)
    requires Parses(services, databases)
    ensures Unambiguous(services, databases, false) <==> AgreeingSuffixes(services, databases)
  {
    forall a, b: DatabaseRules
      ensures Rivals(services, a, b, false) <==> a.suffix == b.suffix
      ensures !Overrules(services, b, a, false)
    {
      AsParsed(services, a, b);
    }
    hide Rivals, Overrules, SortRules, NormalizeDN;
    if Unambiguous(services, databases, false) {
      forall a, b |
        a in databases && b in databases && services.parseDN(a, false) == services.parseDN(b, false)
        ensures SortRules(databases[a].0) == SortRules(databases[b].0)
      {
        var x, y := DatabaseOf(services, databases, a), DatabaseOf(services, databases, b);
        assert Rivals(services, x, y, false);
      }
    }
    if AgreeingSuffixes(services, databases) {
      forall a, b | a in databases && b in databases
        ensures Rivals(services, DatabaseOf(services, databases, a), DatabaseOf(services, databases, b), false) ==>
                DatabaseOf(services, databases, a).rules == DatabaseOf(services, databases, b).rules
      {
      }
    }
  }

  /** The rules a target gets do not depend on the order in which the map of databases was met. */
  lemma RulesOrderIrrelevant(services: Services, global: seq<Rule>, databases: Configured, a: seq<string>,
                             b: seq<string>, target: DN)
    requires Parses(services, databases) && AgreeingSuffixes(services, databases)
    requires Enumerates(a, databases.Keys) && Enumerates(b, databases.Keys)
    ensures RulesFor(services, Built(services, global, databases, a), target, false) ==
            RulesFor(services, Built(services, global, databases, b), target, false)
  {
    UnambiguousAsParsed(services, databases);
    hide RulesFor, Built, Enumerates, Parses, Unambiguous, AgreeingSuffixes;
    RulesOrderIrrelevantUnder(services, global, databases, a, b, target, false);
  }

  /** For requests without a normalizer the exact condition is that suffixes naming the same DN have the same rules. */
  lemma MapOrderFreeIffAgreeing(services: Services, global: seq<Rule>, databases: Configured)
    requires Parses(services, databases)
    ensures MapOrderFree(services, global, databases, false) <==> AgreeingSuffixes(services, databases)
  {
    UnambiguousAsParsed(services, databases);
    hide MapOrderFree, Unambiguous, AgreeingSuffixes, Parses;
    MapOrderFreeExactly(services, global, databases, false);
  }

  // ----- two maps whose order matters -----

  lemma OneRuleSorted(rule: Rule)
    ensures SortRules([rule]) == [rule]
  {
    assert [rule][..0] == [];
    assert InsertRule([], rule) == [rule];
  }

  /** Two suffixes, each with a rule of its own. */
  function TwoSuffixes(a: string, b: string, r: Rule, s: Rule): Configured {
    map[a := ([r], false), b := ([s], false)]
  }

  /** Two spellings of one suffix. */
  lemma TwoSpellings(services: Services, dn: DN, r: Rule, s: Rule)
    requires services.parseDN("cn=a", false) == Some(dn) && services.parseDN("CN=A", false) == Some(dn) && r != s
    ensures var databases := TwoSuffixes("cn=a", "CN=A", r, s);
            Parses(services, databases) && !MapOrderFree(services, [], databases, false)
  {
    var databases := TwoSuffixes("cn=a", "CN=A", r, s);
    assert "cn=a"[0] == 'c' && "CN=A"[0] == 'C';
    assert databases["cn=a"].0 == [r] && databases["CN=A"].0 == [s];
    OneRuleSorted(r);
    OneRuleSorted(s);
    assert [r][0] == r && [s][0] == s;
    hide SortRules, MapOrderFree;
    MapOrderFreeIffAgreeing(services, [], databases);
  }

  /** Equally deep suffixes of one reading and different rules make the order matter. */
  lemma SameReading(services: Services, databases: Configured, a: string, b: string, normalizer: bool)
    requires Parses(services, databases) && databases.Keys == {a, b}
    requires var x, y := DatabaseOf(services, databases, a), DatabaseOf(services, databases, b);
             |x.suffix| == |y.suffix| && NormalizeDN(services, x.suffix, normalizer).Some? &&
             NormalizeDN(services, x.suffix, normalizer) == NormalizeDN(services, y.suffix, normalizer) &&
             x.rules != y.rules
    ensures !Unambiguous(services, databases, normalizer)
  {
    var x, y := DatabaseOf(services, databases, a), DatabaseOf(services, databases, b);
    assert a in databases.Keys && b in databases.Keys;
    assert Rivals(services, x, y, normalizer);
    forall c | c in databases ensures |DatabaseOf(services, databases, c).suffix| == |x.suffix| {
      assert c in databases.Keys;
    }
    hide DatabaseOf, NormalizeDN, Rivals, Covers;
  }

  lemma TwoSuffixesAre(services: Services, p: string, q: string, a: DN, b: DN, r: Rule, s: Rule)
    requires p != q && services.parseDN(p, false) == Some(a) && services.parseDN(q, false) == Some(b)
    ensures var databases := TwoSuffixes(p, q, r, s);
            Parses(services, databases) && databases.Keys == {p, q} &&
            DatabaseOf(services, databases, p) == DatabaseRules(a, [r], false) &&
            DatabaseOf(services, databases, q) == DatabaseRules(b, [s], false)
  {
    OneRuleSorted(r);
    OneRuleSorted(s);
    hide SortRules;
  }

  /** Two suffixes that differ as parsed but not as a normalizer reads them: the order matters only with it. */
  lemma MergedSuffixes(services: Services, p: string, q: string, a: DN, b: DN, merged: DN, r: Rule, s: Rule)
    requires p != q && services.parseDN(p, false) == Some(a) && services.parseDN(q, false) == Some(b)
    requires NormalizeDN(services, a, true) == Some(merged) && NormalizeDN(services, b, true) == Some(merged)
    requires a != b && |a| == |b| && r != s
    ensures var databases := TwoSuffixes(p, q, r, s);
            Parses(services, databases) && MapOrderFree(services, [], databases, false) &&
            !MapOrderFree(services, [], databases, true)
  {
    var databases := TwoSuffixes(p, q, r, s);
    TwoSuffixesAre(services, p, q, a, b, r, s);
    assert forall c :: c in databases ==> c in databases.Keys;
    assert [r][0] == r && [s][0] == s;
    hide SortRules, MapOrderFree, Unambiguous, NormalizeDN, DatabaseOf, TwoSuffixes;
    assert AgreeingSuffixes(services, databases);
    MapOrderFreeIffAgreeing(services, [], databases);
    MapOrderFreeExactly(services, [], databases, true);
    SameReading(services, databases, p, q, true);
  }

  // ----- decisions -----

  lemma SameDecisionBySameRules(services: Services, p: Policy, q: Policy, subject: Subject, target: Target,
                                required: Privilege, reader: Reader)
    requires match services.parseDN(target.entry.dn, target.normalizer)
             case None => true
             case Some(dn) =>
               RulesFor(services, p, dn, target.normalizer) == RulesFor(services, q, dn, target.normalizer)
    ensures Decide(services, p, subject, target, required, reader) ==
            Decide(services, q, subject, target, required, reader)
  {
    hide RulesFor, DecideRules;
  }

  /** Nor does any decision depend on the order of the map. */
  lemma DecisionOrderIrrelevant(services: Services, global: seq<Rule>, databases: Configured, a: seq<string>,
                                b: seq<string>, subject: Subject, target: Target, required: Privilege, reader: Reader)
    requires Parses(services, databases) && Unambiguous(services, databases, target.normalizer)
    requires Enumerates(a, databases.Keys) && Enumerates(b, databases.Keys)
    ensures Decide(services, Built(services, global, databases, a), subject, target, required, reader) ==
            Decide(services, Built(services, global, databases, b), subject, target, required, reader)
  {
    hide RulesFor, Decide, DecideRules, Built, Parses, Enumerates, Unambiguous;
    var targetDN := services.parseDN(target.entry.dn, target.normalizer);
    if targetDN.Some? {
      RulesOrderIrrelevantUnder(services, global, databases, a, b, targetDN.value, target.normalizer);
    }
    SameDecisionBySameRules(services, Built(services, global, databases, a), Built(services, global, databases, b),
                            subject, target, required, reader);
  }
}
