/** The set language of access rules: its evaluator against what its expressions denote. */
module AclSets {
  import opened Text
  import opened AclTypes

  const MaxValues: nat := 10000

  /** A member of a set: a DN by its identity, or any other text. */
  datatype Member = DnMember(dn: DN) | TextMember(text: string)

  datatype Expression =
    | Literal(value: string)
    | User
    | This
    | Union(left: Expression, right: Expression)
    | Intersection(left: Expression, right: Expression)
    | Concat(left: Expression, right: Expression)
    | Chase(from: Expression, attribute: string, closure: bool)
    | Parents(of: Expression, level: nat, all: bool)

  /** The request, DN syntax, and what an attribute of a member leads to. */
  datatype SetContext = SetContext(
    subjectDN: string,
    targetDN: DN,
    parse: string -> Option<DN>,
    normalized: DN -> string,
    gather: (Member, string) -> set<Member>
  )

  /** schemaACLValue. */
  function MemberOf(context: SetContext, raw: string): Member {
    match context.parse(raw) case None => TextMember(raw) case Some(dn) => DnMember(dn)
  }

  function TextOf(context: SetContext, member: Member): string {
    match member case DnMember(dn) => context.normalized(dn) case TextMember(text) => text
  }

  // ----- what expressions denote -----

  /** x is reached from the starting members in n + 1 steps. */
  ghost predicate ReachedIn(context: SetContext, start: iset<Member>, attribute: string, n: nat, x: Member) {
    if n == 0 then exists v :: v in start && x in context.gather(v, attribute)
    else exists y :: ReachedIn(context, start, attribute, n - 1, y) && x in context.gather(y, attribute)
  }

  ghost predicate Reached(context: SetContext, start: iset<Member>, attribute: string, x: Member) {
    exists n: nat :: ReachedIn(context, start, attribute, n, x)
  }

  function Up(dn: DN, levels: nat): DN
    requires levels <= |dn|
  {
    dn[levels..]
  }

  /** One step away, or with closure any positive number of steps. */
  ghost predicate Chased(context: SetContext, start: iset<Member>, attribute: string, closure: bool, x: Member) {
    if closure then Reached(context, start, attribute, x) else ReachedIn(context, start, attribute, 0, x)
  }

  /** The DN itself and its ancestors up to the root, or the one ancestor at a level. */
  ghost predicate IsParent(member: Member, level: nat, all: bool, x: Member) {
    member.DnMember? &&
    if all then exists k: nat :: k <= |member.dn| && x == DnMember(Up(member.dn, k))
    else level <= |member.dn| && x == DnMember(Up(member.dn, level))
  }

  ghost predicate InParents(start: iset<Member>, level: nat, all: bool, x: Member) {
    exists m :: m in start && IsParent(m, level, all, x)
  }

  ghost predicate InConcat(context: SetContext, left: iset<Member>, right: iset<Member>, x: Member) {
    exists l, r :: l in left && r in right && x == MemberOf(context, TextOf(context, l) + TextOf(context, r))
  }

  ghost function Denote(e: Expression, context: SetContext): iset<Member> {
    match e
    case Literal(value) => iset{MemberOf(context, value)}
    case User => if context.parse(context.subjectDN).Some? then iset{MemberOf(context, context.subjectDN)} else iset{}
    case This => iset{DnMember(context.targetDN)}
    case Union(left, right) => Denote(left, context) + Denote(right, context)
    case Intersection(left, right) => Denote(left, context) * Denote(right, context)
    case Concat(left, right) => iset x: Member | InConcat(context, Denote(left, context), Denote(right, context), x)
    case Chase(from, attribute, closure) =>
      Meaning(context, Denote(from, context), attribute, closure)
    case Parents(of, level, all) => iset x: Member | InParents(Denote(of, context), level, all, x)
  }

  ghost predicate Is(s: set<Member>, meaning: iset<Member>) { forall x :: x in s <==> x in meaning }

  /** The meaning is a finite set within the limit. */
  ghost predicate Small(meaning: iset<Member>) { exists s :: Is(s, meaning) && |s| <= MaxValues }

  ghost predicate SmallProduct(left: iset<Member>, right: iset<Member>) {
    exists l, r :: Is(l, left) && Is(r, right) && |l| * |r| <= MaxValues
  }

  /** No union, intersection or chase on the way is over the limit, and no product of concatenated sets. */
  ghost predicate Fits(e: Expression, context: SetContext) {
    match e
    case Literal(_) => true
    case User => true
    case This => true
    case Union(left, right) => Fits(left, context) && Fits(right, context) && Small(Denote(e, context))
    case Intersection(left, right) => Fits(left, context) && Fits(right, context) && Small(Denote(e, context))
    case Concat(left, right) =>
      Fits(left, context) && Fits(right, context) && SmallProduct(Denote(left, context), Denote(right, context))
    case Chase(from, _, _) => Fits(from, context) && Small(Denote(e, context))
    case Parents(of, _, _) => Fits(of, context)
  }

  // ----- finite sets -----

  lemma {:induction false} SubsetSize<T>(a: set<T>, b: set<T>)
    requires a <= b
    ensures |a| <= |b|
    decreases |a|
  {
    if a != {} {
      var x :| x in a;
      SubsetSize(a - {x}, b - {x});
    }
  }

  lemma SameMeaning(a: set<Member>, b: set<Member>, meaning: iset<Member>)
    requires Is(a, meaning) && Is(b, meaning)
    ensures a == b
  {
  }

  lemma SmallExactly(s: set<Member>, meaning: iset<Member>)
    requires Is(s, meaning)
    ensures Small(meaning) <==> |s| <= MaxValues
  {
    if Small(meaning) {
      var other :| Is(other, meaning) && |other| <= MaxValues;
      SameMeaning(s, other, meaning);
    }
  }

  /** More members than the limit allows: whatever the rest, the meaning is not small. */
  lemma TooManyMembers(s: set<Member>, meaning: iset<Member>)
    requires |s| > MaxValues && forall x :: x in s ==> x in meaning
    ensures !Small(meaning)
  {
    if Small(meaning) {
      var other :| Is(other, meaning) && |other| <= MaxValues;
      SubsetSize(s, other);
    }
  }

  lemma QuotientBound(a: nat, b: nat, limit: nat)
    requires a > 0
    ensures b > limit / a <==> a * b > limit
  {
    var q := limit / a;
    assert q * a <= limit < (q + 1) * a;
    if b > q { assert a * b >= a * (q + 1); } else { assert a * b <= a * q; }
  }

  // ----- joining -----

  /** The union loops of joinSchemaACLSets: one set poured into another, member by member, in any order. */
  method Pour(from: set<Member>, into: set<Member>) returns (result: set<Member>)
    ensures result == into + from
  {
    result := into;
    var remaining := from;
    while remaining != {}
      invariant remaining <= from && result == into + (from - remaining)
      decreases |remaining|
    {
      var member :| member in remaining;
      remaining := remaining - {member};
      result := result + {member};
    }
  }

  /** The intersection loop. */
  method Common(left: set<Member>, right: set<Member>) returns (result: set<Member>)
    ensures result == left * right
  {
    result := {};
    var remaining := left;
    while remaining != {}
      invariant remaining <= left && result == (left - remaining) * right
      decreases |remaining|
    {
      var member :| member in remaining;
      remaining := remaining - {member};
      if member in right { result := result + {member}; }
    }
  }

  function Joined(context: SetContext, l: Member, r: Member): Member {
    MemberOf(context, TextOf(context, l) + TextOf(context, r))
  }

  function JoinedOne(context: SetContext, l: Member, right: set<Member>): set<Member> {
    set r | r in right :: Joined(context, l, r)
  }

  function JoinedAll(context: SetContext, left: set<Member>, right: set<Member>): set<Member> {
    set l, r | l in left && r in right :: Joined(context, l, r)
  }

  lemma JoinedOneStep(context: SetContext, l: Member, right: set<Member>, r: Member)
    ensures JoinedOne(context, l, right + {r}) == JoinedOne(context, l, right) + {Joined(context, l, r)}
  {
    hide Joined;
  }

  lemma JoinedAllStep(context: SetContext, left: set<Member>, l: Member, right: set<Member>)
    ensures JoinedAll(context, left + {l}, right) == JoinedAll(context, left, right) + JoinedOne(context, l, right)
  {
    hide Joined;
  }

  lemma OneMore(s: set<Member>, member: Member)
    ensures |s + {member}| <= |s| + 1
    ensures member in s ==> |s| == |s - {member}| + 1 && s == s - {member} + {member}
  {
    if member in s { assert s + {member} == s; }
  }

  lemma UnionSize(a: set<Member>, b: set<Member>)
    ensures |a + b| <= |a| + |b|
  {
  }

  lemma {:induction false} JoinedOneSize(context: SetContext, l: Member, right: set<Member>)
    ensures |JoinedOne(context, l, right)| <= |right|
    decreases |right|
  {
    hide Joined;
    if right == {} {
      assert JoinedOne(context, l, right) == {};
    } else {
      var r :| r in right;
      hide JoinedOne;
      OneMore(right, r);
      JoinedOneSize(context, l, right - {r});
      JoinedOneStep(context, l, right - {r}, r);
      OneMore(JoinedOne(context, l, right - {r}), Joined(context, l, r));
    }
  }

  function Times(a: nat, b: nat): nat { a * b }

  lemma TimesStep(a: nat, b: nat)
    ensures Times(a + 1, b) == Times(a, b) + b
  {
  }

  lemma {:induction false} JoinedAllSize(context: SetContext, left: set<Member>, right: set<Member>)
    ensures |JoinedAll(context, left, right)| <= Times(|left|, |right|)
    decreases |left|
  {
    hide Joined;
    if left == {} {
      assert JoinedAll(context, left, right) == {};
    } else {
      var l :| l in left;
      hide JoinedAll, JoinedOne, Times;
      OneMore(left, l);
      TimesStep(|left - {l}|, |right|);
      JoinedAllSize(context, left - {l}, right);
      JoinedAllStep(context, left - {l}, l, right);
      JoinedOneSize(context, l, right);
      UnionSize(JoinedAll(context, left - {l}, right), JoinedOne(context, l, right));
    }
  }

  /** One left member joined to every right member. */
  method ConcatOne(context: SetContext, l: Member, right: set<Member>, into: set<Member>) returns (result: set<Member>)
    ensures result == into + JoinedOne(context, l, right)
  {
    result := into;
    var remaining := right;
    hide Joined;
    while remaining != {}
      invariant remaining <= right && result == into + JoinedOne(context, l, right - remaining)
      decreases |remaining|
    {
      var r :| r in remaining;
      hide JoinedOne;
      JoinedOneStep(context, l, right - remaining, r);
      assert right - (remaining - {r}) == right - remaining + {r};
      remaining := remaining - {r};
      result := result + {Joined(context, l, r)};
    }
    assert right - remaining == right;
  }

  /** The concatenation loops. */
  method ConcatAll(context: SetContext, left: set<Member>, right: set<Member>) returns (result: set<Member>)
    ensures result == JoinedAll(context, left, right)
  {
    result := {};
    var remaining := left;
    hide Joined;
    while remaining != {}
      invariant remaining <= left && result == JoinedAll(context, left - remaining, right)
      decreases |remaining|
    {
      var l :| l in remaining;
      hide JoinedAll, JoinedOne;
      JoinedAllStep(context, left - remaining, l, right);
      assert left - (remaining - {l}) == left - remaining + {l};
      result := ConcatOne(context, l, right, result);
      remaining := remaining - {l};
    }
    assert left - remaining == left;
  }

  datatype JoinKind = UnionKind | IntersectionKind | ConcatKind

  function JoinedBy(context: SetContext, kind: JoinKind, left: set<Member>, right: set<Member>): set<Member> {
    match kind
    case UnionKind => left + right
    case IntersectionKind => left * right
    case ConcatKind => JoinedAll(context, left, right)
  }

  /** joinSchemaACLSets. */
  method JoinSets(context: SetContext, left: set<Member>, right: set<Member>, kind: JoinKind)
    returns (result: Option<set<Member>>)
    ensures result.Some? ==> result.value == JoinedBy(context, kind, left, right)
    ensures result.Some? <==> if kind == ConcatKind then |left| * |right| <= MaxValues
                              else |JoinedBy(context, kind, left, right)| <= MaxValues
  {
    hide JoinedAll;
    var joined: set<Member> := {};
    match kind {
      case UnionKind =>
        joined := Pour(left, joined);
        joined := Pour(right, joined);
        assert joined == left + right;
      case IntersectionKind => joined := Common(left, right);
      case ConcatKind =>
        if |left| > 0 {
          QuotientBound(|left|, |right|, MaxValues);
          if |right| > MaxValues / |left| { return None; }
        }
        joined := ConcatAll(context, left, right);
        JoinedAllSize(context, left, right);
    }
    if |joined| > MaxValues { return None; }
    return Some(joined);
  }

  // ----- chasing -----

  function Elements(queue: seq<Member>): set<Member> { set x | x in queue }

  lemma ElementsSnoc(queue: seq<Member>, x: Member)
    ensures Elements(queue + [x]) == Elements(queue) + {x}
  {
  }

  lemma ElementsRest(queue: seq<Member>, position: nat)
    requires position < |queue|
    ensures Elements(queue[position..]) == {queue[position]} + Elements(queue[position + 1..])
  {
    assert queue[position..] == [queue[position]] + queue[position + 1..];
  }

  lemma ChasedFromStart(context: SetContext, start: iset<Member>, attribute: string, closure: bool, v: Member,
                        x: Member)
    requires v in start && x in context.gather(v, attribute)
    ensures Chased(context, start, attribute, closure, x)
  {
    assert ReachedIn(context, start, attribute, 0, x);
  }

  lemma ChasedOn(context: SetContext, start: iset<Member>, attribute: string, y: Member, x: Member)
    requires Chased(context, start, attribute, true, y) && x in context.gather(y, attribute)
    ensures Chased(context, start, attribute, true, x)
  {
    var n: nat :| ReachedIn(context, start, attribute, n, y);
    assert ReachedIn(context, start, attribute, n + 1, x);
  }

  /** A set holding what the starting members and its own members lead to holds everything reached. */
  lemma {:induction false} ClosedHoldsReached(context: SetContext, start: iset<Member>, attribute: string,
                                              result: set<Member>, n: nat, x: Member)
    requires forall v, y :: v in start && y in context.gather(v, attribute) ==> y in result
    requires forall v, y :: v in result && y in context.gather(v, attribute) ==> y in result
    requires ReachedIn(context, start, attribute, n, x)
    ensures x in result
  {
    if n == 0 {
      var v :| v in start && x in context.gather(v, attribute);
    } else {
      var y :| ReachedIn(context, start, attribute, n - 1, y) && x in context.gather(y, attribute);
      ClosedHoldsReached(context, start, attribute, result, n - 1, y);
    }
  }

  ghost predicate AllChased(context: SetContext, start: iset<Member>, attribute: string, closure: bool, s: set<Member>)
  {
    forall x :: x in s ==> Chased(context, start, attribute, closure, x)
  }

  /** Everything the processed members lead to is in the result. */
  ghost predicate Absorbed(context: SetContext, attribute: string, done: set<Member>, result: set<Member>) {
    forall v :: v in done ==> context.gather(v, attribute) <= result
  }

  /** Once every starting member, and with closure every result, is processed, nothing is missing. */
  lemma NothingMissing(context: SetContext, start: iset<Member>, attribute: string, closure: bool, values: set<Member>,
                       done: set<Member>, result: set<Member>)
    requires Is(values, start) && Absorbed(context, attribute, done, result)
    requires done == if closure then values + result else values
    requires AllChased(context, start, attribute, closure, result)
    ensures forall x :: x in result <==> Chased(context, start, attribute, closure, x)
  {
    forall x | Chased(context, start, attribute, closure, x) ensures x in result {
      if closure {
        var n: nat :| ReachedIn(context, start, attribute, n, x);
        ClosedHoldsReached(context, start, attribute, result, n, x);
      } else {
        var v :| v in start && x in context.gather(v, attribute);
        assert v in done;
      }
    }
  }

  lemma GatheredChased(context: SetContext, start: iset<Member>, attribute: string, closure: bool, values: set<Member>,
                       result: set<Member>, v: Member)
    requires Is(values, start) && AllChased(context, start, attribute, closure, result)
    requires v in values || (closure && v in result)
    ensures AllChased(context, start, attribute, closure, context.gather(v, attribute))
  {
    hide Chased;
    forall x | x in context.gather(v, attribute) ensures Chased(context, start, attribute, closure, x) {
      if v in values {
        ChasedFromStart(context, start, attribute, closure, v, x);
      } else {
        ChasedOn(context, start, attribute, v, x);
      }
    }
  }

  /** The queue has grown by exactly the new members of the result. */
  ghost predicate Grown(waiting: seq<Member>, queue: seq<Member>, into: set<Member>, result: set<Member>, closure: bool)
  {
    if closure then waiting <= queue && Elements(queue[|waiting|..]) == result - into else queue == waiting
  }

  lemma GrownStep(waiting: seq<Member>, queue: seq<Member>, into: set<Member>, result: set<Member>, x: Member)
    requires Grown(waiting, queue, into, result, true) && x !in into
    ensures Grown(waiting, queue + [x], into, result + {x}, true)
  {
    ElementsSnoc(queue[|waiting|..], x);
    assert (queue + [x])[|waiting|..] == queue[|waiting|..] + [x];
  }

  lemma GrownStart(waiting: seq<Member>, into: set<Member>, closure: bool)
    ensures Grown(waiting, waiting, into, into, closure)
  {
    assert waiting[|waiting|..] == [];
  }

  ghost predicate Poured(result: set<Member>, into: set<Member>, gathered: set<Member>, remaining: set<Member>) {
    remaining <= gathered && result == into + (gathered - remaining)
  }

  lemma PouredStep(result: set<Member>, into: set<Member>, gathered: set<Member>, remaining: set<Member>, x: Member)
    requires Poured(result, into, gathered, remaining) && x in remaining
    ensures Poured(result + {x}, into, gathered, remaining - {x})
    ensures x in result ==> result + {x} == result
    ensures x !in result ==> |result + {x}| == |result| + 1 && x !in into && result + {x} <= into + gathered
  {
  }

  /** The inner loop of chaseSchemaACLSet: new members join the result and, with closure, the queue. */
  method Absorb(gathered: set<Member>, into: set<Member>, waiting: seq<Member>, closure: bool)
    returns (fits: bool, result: set<Member>, queue: seq<Member>)
    requires |into| <= MaxValues
    ensures fits ==> result == into + gathered && |result| <= MaxValues && Grown(waiting, queue, into, result, closure)
    ensures !fits ==> |result| > MaxValues && result <= into + gathered
  {
    result, queue := into, waiting;
    var remaining := gathered;
    GrownStart(waiting, into, closure);
    assert Poured(result, into, gathered, remaining);
    hide Grown, Poured;
    while remaining != {}
      invariant Poured(result, into, gathered, remaining) && |result| <= MaxValues
      invariant Grown(waiting, queue, into, result, closure)
      decreases remaining
    {
      var x :| x in remaining;
      PouredStep(result, into, gathered, remaining, x);
      remaining := remaining - {x};
      if x in result { continue; }
      if |result| >= MaxValues {
        result := result + {x};
        return false, result, queue;
      }
      if closure {
        GrownStep(waiting, queue, into, result, x);
        queue := queue + [x];
      } else {
        GrownPlain(waiting, queue, into, result, result + {x});
      }
      result := result + {x};
    }
    PouredAll(result, into, gathered);
    fits := true;
  }

  lemma PouredAll(result: set<Member>, into: set<Member>, gathered: set<Member>)
    requires Poured(result, into, gathered, {})
    ensures result == into + gathered
  {
  }

  lemma GrownPlain(waiting: seq<Member>, queue: seq<Member>, into: set<Member>, result: set<Member>, later: set<Member>)
    requires Grown(waiting, queue, into, result, false)
    ensures Grown(waiting, queue, into, later, false)
  {
  }

  /** The starting queue: the members in any order. */
  method Enqueue(values: set<Member>) returns (queue: seq<Member>)
    ensures Elements(queue) == values && |queue| == |values|
  {
    queue := [];
    var remaining := values;
    while remaining != {}
      invariant remaining <= values && Elements(queue) == values - remaining && |queue| == |values| - |remaining|
      decreases |remaining|
    {
      var x :| x in remaining;
      ElementsSnoc(queue, x);
      remaining := remaining - {x};
      queue := queue + [x];
    }
  }

  /** What is processed and what still waits make up what the chase has to look at. */
  ghost predicate Accounted(values: set<Member>, result: set<Member>, done: set<Member>, rest: seq<Member>,
                            closure: bool)
  {
    done + Elements(rest) == if closure then values + result else values
  }

  lemma AccountedStep(values: set<Member>, into: set<Member>, result: set<Member>, done: set<Member>,
                      waiting: seq<Member>, queue: seq<Member>, position: nat, closure: bool)
    requires position < |waiting| && into <= result
    requires Accounted(values, into, done, waiting[position..], closure) && Grown(waiting, queue, into, result, closure)
    ensures |queue| >= |waiting| && (result == into || !closure ==> queue == waiting)
    ensures Accounted(values, result, done + {waiting[position]}, queue[position + 1..], closure)
  {
    ElementsRest(waiting, position);
    if closure {
      var added := queue[|waiting|..];
      assert queue == waiting + added;
      assert queue[position + 1..] == waiting[position + 1..] + added;
      ElementsConcat(waiting[position + 1..], added);
      if result == into {
        SomeElements(added);
        assert queue == waiting + [];
      }
    }
  }

  lemma SomeElements(a: seq<Member>)
    ensures a != [] ==> Elements(a) != {}
  {
    if a != [] { assert a[0] in Elements(a); }
  }

  lemma ElementsConcat(a: seq<Member>, b: seq<Member>)
    ensures Elements(a + b) == Elements(a) + Elements(b)
  {
  }

  lemma StrictlyLarger(a: set<Member>, b: set<Member>)
    requires a <= b && a != b
    ensures |a| < |b|
  {
    var x :| x in b && x !in a;
    SubsetSize(a, b - {x});
    OneMore(b, x);
  }

  lemma AbsorbedStep(context: SetContext, attribute: string, done: set<Member>, into: set<Member>, v: Member,
                     result: set<Member>)
    requires Absorbed(context, attribute, done, into) && result == into + context.gather(v, attribute)
    ensures Absorbed(context, attribute, done + {v}, result)
  {
  }

  lemma ChasedTogether(context: SetContext, start: iset<Member>, attribute: string, closure: bool, a: set<Member>,
                       b: set<Member>, c: set<Member>)
    requires AllChased(context, start, attribute, closure, a) && AllChased(context, start, attribute, closure, b)
    requires c <= a + b
    ensures AllChased(context, start, attribute, closure, c)
  {
    hide Chased;
  }

  lemma InQueue(values: set<Member>, result: set<Member>, done: set<Member>, queue: seq<Member>, position: nat,
                closure: bool)
    requires position < |queue| && Accounted(values, result, done, queue[position..], closure)
    ensures queue[position] in values || (closure && queue[position] in result)
  {
    ElementsRest(queue, position);
    assert queue[position] in done + Elements(queue[position..]);
  }

  ghost function Meaning(context: SetContext, start: iset<Member>, attribute: string, closure: bool): iset<Member> {
    iset x: Member | Chased(context, start, attribute, closure, x)
  }

  lemma TooManyChased(context: SetContext, start: iset<Member>, attribute: string, closure: bool, result: set<Member>)
    requires |result| > MaxValues && AllChased(context, start, attribute, closure, result)
    ensures !Small(Meaning(context, start, attribute, closure))
  {
    hide Chased, Small;
    TooManyMembers(result, Meaning(context, start, attribute, closure));
  }

  lemma Finished(context: SetContext, start: iset<Member>, attribute: string, closure: bool, values: set<Member>,
                 done: set<Member>, result: set<Member>)
    requires Is(values, start) && Absorbed(context, attribute, done, result) && |result| <= MaxValues
    requires AllChased(context, start, attribute, closure, result) && Accounted(values, result, done, [], closure)
    ensures Small(Meaning(context, start, attribute, closure)) && Is(result, Meaning(context, start, attribute, closure))
  {
    assert done + Elements([]) == done;
    NothingMissing(context, start, attribute, closure, values, done, result);
    hide Chased, Absorbed, AllChased;
    SmallExactly(result, Meaning(context, start, attribute, closure));
  }

  lemma Started(context: SetContext, start: iset<Member>, attribute: string, closure: bool, values: set<Member>,
                queue: seq<Member>)
    requires Elements(queue) == values
    ensures Accounted(values, {}, {}, queue, closure) && AllChased(context, start, attribute, closure, {}) &&
            Absorbed(context, attribute, {}, {})
  {
  }

  /** chaseSchemaACLSet: the worklist, in whatever order the maps are iterated. */
  method ChaseSet(context: SetContext, values: set<Member>, attribute: string, closure: bool, ghost start: iset<Member>)
    returns (chased: Option<set<Member>>)
    requires Is(values, start)
    ensures chased.Some? <==> Small(Meaning(context, start, attribute, closure))
    ensures chased.Some? ==> Is(chased.value, Meaning(context, start, attribute, closure))
  {
    var result: set<Member> := {};
    var queue := Enqueue(values);
    var initial := |queue|;
    var position := 0;
    ghost var done: set<Member> := {};
    assert queue[0..] == queue;
    Started(context, start, attribute, closure, values, queue);
    hide Is, Small, Grown, Elements, Chased, Meaning, Accounted, AllChased, Absorbed;
    while position < |queue|
      invariant 0 <= position <= |queue| && |result| <= MaxValues
      invariant Accounted(values, result, done, queue[position..], closure)
      invariant AllChased(context, start, attribute, closure, result)
      invariant Absorbed(context, attribute, done, result)
      invariant !closure ==> |queue| == initial
      decreases MaxValues - |result|, |queue| - position
    {
      ghost var into, waiting := result, queue;
      var v := queue[position];
      var gathered := context.gather(v, attribute);
      InQueue(values, into, done, queue, position, closure);
      GatheredChased(context, start, attribute, closure, values, into, v);
      var fits;
      fits, result, queue := Absorb(gathered, result, queue, closure);
      ChasedTogether(context, start, attribute, closure, into, gathered, result);
      if !fits {
        TooManyChased(context, start, attribute, closure, result);
        return None;
      }
      AccountedStep(values, into, result, done, waiting, queue, position, closure);
      AbsorbedStep(context, attribute, done, into, v, result);
      if result != into { StrictlyLarger(into, result); }
      done := done + {v};
      position := position + 1;
      if !closure && position == initial { break; }
    }
    assert queue[position..] == [];
    Finished(context, start, attribute, closure, values, done, result);
    return Some(result);
  }

  // ----- parents -----

  /** dnAncestorAllowRoot. */
  method AncestorAllowRoot(start: DN, levels: nat) returns (ancestor: Option<DN>)
    ensures ancestor == if levels <= |start| then Some(Up(start, levels)) else None
  {
    var dn := start;
    var level := levels;
    while level > 0
      invariant 0 <= level <= levels && levels - level <= |start| && dn == start[levels - level..]
    {
      var parent := Parent(dn);
      assert |dn| == |start| - (levels - level);
      if parent.None? { return None; }
      dn := parent.value;
      level := level - 1;
    }
    assert level == 0 && dn == Up(start, levels);
    return Some(dn);
  }

  ghost predicate ParentsAre(s: set<Member>, values: set<Member>, level: nat, all: bool) {
    forall x :: x in s <==> exists m :: m in values && IsParent(m, level, all, x)
  }

  /** The loop up from one DN to the root. */
  method AddAncestors(start: DN, level: nat, into: set<Member>) returns (result: set<Member>)
    ensures forall x :: x in result <==> x in into || IsParent(DnMember(start), level, true, x)
  {
    var dn := start;
    result := into;
    ghost var k: nat := 0;
    while true
      invariant k <= |start| && dn == start[k..]
      invariant forall x :: x in result <==> x in into || exists j: nat :: j < k && x == DnMember(Up(start, j))
      decreases |start| - k
    {
      result := result + {DnMember(dn)};
      assert DnMember(dn) == DnMember(Up(start, k));
      var parent := Parent(dn);
      if parent.None? {
        assert k == |start|;
        break;
      }
      dn := parent.value;
      k := k + 1;
    }
  }

  lemma ParentsStep(s: set<Member>, values: set<Member>, level: nat, all: bool, m: Member, result: set<Member>)
    requires ParentsAre(s, values, level, all) && forall x :: x in result <==> x in s || IsParent(m, level, all, x)
    ensures ParentsAre(result, values + {m}, level, all)
  {
    hide IsParent;
  }

  /** parentSchemaACLSet. */
  method ParentSet(values: set<Member>, level: nat, all: bool) returns (result: set<Member>)
    ensures ParentsAre(result, values, level, all)
  {
    result := {};
    var remaining := values;
    assert ParentsAre(result, {}, level, all);
    while remaining != {}
      invariant remaining <= values && ParentsAre(result, values - remaining, level, all)
      decreases remaining
    {
      var m :| m in remaining;
      ghost var done, before := values - remaining, result;
      remaining := remaining - {m};
      assert values - remaining == done + {m};
      hide ParentsAre;
      match m {
        case TextMember(_) =>
        case DnMember(dn) =>
          if all {
            result := AddAncestors(dn, level, result);
          } else {
            var ancestor := AncestorAllowRoot(dn, level);
            if ancestor.Some? { result := result + {DnMember(ancestor.value)}; }
          }
      }
      assert forall x :: x in result <==> x in before || IsParent(m, level, all, x);
      ParentsStep(before, done, level, all, m, result);
    }
    assert values - remaining == values;
  }

  // ----- evaluation -----

  lemma ConcatIs(context: SetContext, left: set<Member>, right: set<Member>, l: iset<Member>, r: iset<Member>)
    requires Is(left, l) && Is(right, r)
    ensures Is(JoinedAll(context, left, right), iset x: Member | InConcat(context, l, r, x))
    ensures SmallProduct(l, r) <==> |left| * |right| <= MaxValues
  {
    forall x ensures x in JoinedAll(context, left, right) <==> InConcat(context, l, r, x) {
      hide MemberOf, TextOf;
      if InConcat(context, l, r, x) {
        var a, b :| a in l && b in r && x == MemberOf(context, TextOf(context, a) + TextOf(context, b));
        assert a in left && b in right && x == Joined(context, a, b);
      }
      if x in JoinedAll(context, left, right) {
        var a, b :| a in left && b in right && x == Joined(context, a, b);
        assert a in l && b in r;
      }
    }
    if SmallProduct(l, r) {
      var a, b :| Is(a, l) && Is(b, r) && |a| * |b| <= MaxValues;
      SameMeaning(a, left, l);
      SameMeaning(b, right, r);
    }
  }

  lemma ParentsIs(context: SetContext, s: set<Member>, values: set<Member>, start: iset<Member>, level: nat, all: bool)
    requires Is(values, start) && ParentsAre(s, values, level, all)
    ensures Is(s, iset x: Member | InParents(start, level, all, x))
  {
    hide IsParent;
  }

  lemma JoinIs(e: Expression, context: SetContext, left: set<Member>, right: set<Member>, kind: JoinKind)
    requires match kind case UnionKind => e.Union? case IntersectionKind => e.Intersection? case ConcatKind => e.Concat?
    requires Is(left, Denote(e.left, context)) && Is(right, Denote(e.right, context))
    requires Fits(e.left, context) && Fits(e.right, context)
    ensures Is(JoinedBy(context, kind, left, right), Denote(e, context))
    ensures Fits(e, context) <==> if kind == ConcatKind then |left| * |right| <= MaxValues
                                  else |JoinedBy(context, kind, left, right)| <= MaxValues
  {
    match kind
    case ConcatKind => ConcatIs(context, left, right, Denote(e.left, context), Denote(e.right, context));
    case UnionKind => SmallExactly(left + right, Denote(e, context));
    case IntersectionKind => SmallExactly(left * right, Denote(e, context));
  }

  /**
   * evaluateSchemaACLSet: exactly the denoted set, and an error exactly when a limit is exceeded. The maps are
   * iterated in arbitrary order throughout, so the result does not depend on it.
   */
  method Evaluate(e: Expression, context: SetContext) returns (result: Option<set<Member>>)
    ensures result.Some? <==> Fits(e, context)
    ensures result.Some? ==> Is(result.value, Denote(e, context))
    decreases e
  {
    match e
    case Literal(value) => result := Some({MemberOf(context, value)});
    case User =>
      if context.parse(context.subjectDN).None? { return Some({}); }
      result := Some({MemberOf(context, context.subjectDN)});
    case This => result := Some({DnMember(context.targetDN)});
    case Union(l, r) => result := EvaluateJoin(e, l, r, UnionKind, context);
    case Intersection(l, r) => result := EvaluateJoin(e, l, r, IntersectionKind, context);
    case Concat(l, r) => result := EvaluateJoin(e, l, r, ConcatKind, context);
    case Chase(from, attribute, closure) =>
      var values := Evaluate(from, context);
      if values.None? { return None; }
      hide Small, Is, Meaning;
      result := ChaseSet(context, values.value, attribute, closure, Denote(from, context));
    case Parents(of, level, all) =>
      var values := Evaluate(of, context);
      if values.None? { return None; }
      hide Is, ParentsAre;
      var parents := ParentSet(values.value, level, all);
      ParentsIs(context, parents, values.value, Denote(of, context), level, all);
      result := Some(parents);
  }

  method EvaluateJoin(e: Expression, l: Expression, r: Expression, kind: JoinKind, context: SetContext)
    returns (result: Option<set<Member>>)
    requires match kind case UnionKind => e == Union(l, r) case IntersectionKind => e == Intersection(l, r)
                        case ConcatKind => e == Concat(l, r)
    ensures result.Some? <==> Fits(e, context)
    ensures result.Some? ==> Is(result.value, Denote(e, context))
    decreases e, 0
  {
    hide Small, SmallProduct, Is, JoinedBy;
    var left := Evaluate(l, context);
    if left.None? { return None; }
    var right := Evaluate(r, context);
    if right.None? { return None; }
    JoinIs(e, context, left.value, right.value, kind);
    hide Fits, Denote;
    result := JoinSets(context, left.value, right.value, kind);
  }

  /** The expression fits the limits and denotes something. */
  ghost predicate Inhabited(e: Expression, context: SetContext) {
    Fits(e, context) && exists x :: x in Denote(e, context)
  }

  method HasMembers(e: Expression, context: SetContext) returns (matched: bool)
    ensures matched <==> Inhabited(e, context)
  {
    hide Fits, Denote;
    var values := Evaluate(e, context);
    if values.None? { return false; }
    matched := |values.value| > 0;
    if matched {
      assert values.value != {};
      ghost var x :| x in values.value;
      assert x in Denote(e, context);
    }
  }
}
