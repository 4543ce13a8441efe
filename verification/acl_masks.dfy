/** What the mask of a run is made of: for every privilege, the last applied clause that speaks of it decides. */
module AclMasks {
  import opened Text
  import opened AclTypes
  import opened AclAci
  import opened AclMatching
  import opened AclPolicy
  import opened AclTheorems

  /** The clause leaves the privilege on, whatever was held before. */
  predicate Gives(clause: ByClause, access: Access) {
    (clause.grant.mode == GrantSet || clause.grant.mode == GrantAdd) && access in clause.grant.privileges
  }

  /** The clause leaves the privilege off, whatever was held before. */
  predicate Takes(clause: ByClause, access: Access) {
    (clause.grant.mode == GrantSet && access !in clause.grant.privileges) ||
    (clause.grant.mode == GrantRemove && access in clause.grant.privileges)
  }

  /** Some applied clause gives the privilege and none after it takes it away. */
  ghost predicate LastWord(applied: seq<ByClause>, access: Access) {
    exists i :: 0 <= i < |applied| && Gives(applied[i], access) &&
      forall j :: i < j < |applied| ==> !Takes(applied[j], access)
  }

  function Folded(current: Privilege, applied: seq<ByClause>): Privilege {
    if applied == [] then current
    else ApplyGrant(Folded(current, applied[..|applied| - 1]), applied[|applied| - 1].grant)
  }

  lemma FoldedAppend(current: Privilege, a: seq<ByClause>, b: seq<ByClause>)
    ensures Folded(current, a + b) == Folded(Folded(current, a), b)
    decreases |b|
  {
    hide ApplyGrant;
    if b == [] {
      assert a + b == a;
    } else {
      assert (a + b)[..|a + b| - 1] == a + b[..|b| - 1];
      FoldedAppend(current, a, b[..|b| - 1]);
    }
  }

  lemma LastWordSnoc(front: seq<ByClause>, last: ByClause, access: Access)
    ensures LastWord(front + [last], access) <==>
            Gives(last, access) || (LastWord(front, access) && !Takes(last, access))
  {
    assert Gives(last, access) ==> !Takes(last, access);
    hide Gives, Takes;
    var all := front + [last];
    if LastWord(front, access) && !Takes(last, access) {
      var i :| 0 <= i < |front| && Gives(front[i], access) && forall j :: i < j < |front| ==> !Takes(front[j], access);
      assert Gives(all[i], access) && forall j :: i < j < |all| ==> !Takes(all[j], access);
    }
    if Gives(last, access) { assert Gives(all[|front|], access); }
    if LastWord(all, access) && !Gives(last, access) {
      var i :| 0 <= i < |all| && Gives(all[i], access) && forall j :: i < j < |all| ==> !Takes(all[j], access);
      assert i < |front| && Gives(front[i], access) && all[|front|] == last;
      assert forall j :: i < j < |front| ==> !Takes(front[j], access) by {
        assert forall j :: 0 <= j < |front| ==> front[j] == all[j];
      }
    }
  }

  lemma {:induction false} FoldedIsLastWord(applied: seq<ByClause>, access: Access)
    ensures access in Folded({}, applied) <==> LastWord(applied, access)
    decreases |applied|
  {
    if applied != [] {
      var front, last := applied[..|applied| - 1], applied[|applied| - 1];
      FoldedIsLastWord(front, access);
      assert access in Folded({}, applied) <==>
             Gives(last, access) || (access in Folded({}, front) && !Takes(last, access));
      hide Gives, Takes, Folded, LastWord;
      assert applied == front + [last];
      LastWordSnoc(front, last, access);
    }
  }

  lemma FoldedOne(current: Privilege, clause: ByClause)
    ensures Folded(current, [clause]) == ApplyGrant(current, clause.grant)
  {
    assert [clause][..0] == [] && Folded(current, []) == current;
  }

  /** The mask of a run over static clauses is the applied grants in order. */
  lemma {:induction false} ClausesFold(services: Services, clauses: seq<ByClause>, query: Query, required: Privilege,
                                       reader: Reader, current: Privilege)
    requires forall j, k :: 0 <= j < |clauses| && 0 <= k < |clauses[j].who| ==> !clauses[j].who[k].who.WhoACI?
    ensures var end := RunClauses(services, clauses, query, required, reader, current);
            end.privileges == Folded(current, end.applied)
    decreases |clauses|
  {
    if clauses != [] {
      var clause, rest := clauses[0], clauses[1..];
      ClauseStatic(services, clause, query, reader);
      var found := MatchesWho(services, clause.who, clause.grant, query, reader);
      hide MatchesWho;
      assert forall j, k :: 0 <= j < |rest| && 0 <= k < |rest[j].who| ==> !rest[j].who[k].who.WhoACI?;
      if !Applies(clause, found, required) {
        Passed(services, clauses, query, required, reader, current);
        ClausesFold(services, rest, query, required, reader, current);
        hide RunClauses, Folded;
        var end := RunClauses(services, rest, query, required, reader, current);
        assert [] + end.applied == end.applied;
      } else {
        var after := After(clause, found, current);
        FoldedOne(current, clause);
        Applied(services, clauses, query, required, reader, current, after);
        ClausesFold(services, rest, query, required, reader, after);
        hide RunClauses, ApplyGrant, Applies;
        var end := RunClauses(services, rest, query, required, reader, after);
        FoldedAppend(current, [clause], end.applied);
        FoldedAppend(current, [clause], []);
        hide Folded;
      }
    }
  }

  lemma {:induction false} RulesFold(services: Services, rules: seq<Rule>, request: Request, reader: Reader,
                                     current: Privilege)
    requires NoAci(rules)
    ensures var end := RunRules(services, rules, request, reader, current);
            end.privileges == Folded(current, end.applied)
    decreases |rules|
  {
    if rules != [] {
      var context := MatchTarget(services, rules[0].target, request.target, request.targetDN);
      hide MatchTarget;
      assert NoAci(rules[1..]);
      if context.None? {
        RulesFold(services, rules[1..], request, reader, current);
      } else {
        var query := QueryOf(request, context.value);
        ClausesFold(services, rules[0].clauses, query, request.required, reader, current);
        var here := RunClauses(services, rules[0].clauses, query, request.required, reader, current);
        hide NoAci, RunClauses;
        RuleDecides(services, rules, request, reader, current, context.value);
        RulesFold(services, rules[1..], request, reader, here.privileges);
        var rest := RunRules(services, rules[1..], request, reader, here.privileges);
        FoldedAppend(current, here.applied, rest.applied);
        hide RunRules, Folded;
      }
    }
  }

  /**
   * Without ACI clauses a non-empty rule list allows a request exactly when the run ends at a stop clause and, for
   * every privilege asked for, the last applied clause that gives or takes it gives it.
   */
  lemma LastWordDecides(services: Services, rules: seq<Rule>, request: Request, reader: Reader)
    requires rules != [] && NoAci(rules)
    ensures var end := RunRules(services, rules, request, reader, {});
            DecideRules(services, rules, request, reader).allowed <==>
            end.ending == Stopped && forall access :: access in request.required ==> LastWord(end.applied, access)
  {
    RulesFold(services, rules, request, reader, {});
    hide NoAci, RunRules, Folded, LastWord;
    var end := RunRules(services, rules, request, reader, {});
    forall access: Access ensures access in end.privileges <==> LastWord(end.applied, access) {
      FoldedIsLastWord(end.applied, access);
    }
  }
}
