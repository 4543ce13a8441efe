/** What holds of every decision, whatever the rules, the subject and the directory. */
module AclTheorems {
  import opened Text
  import opened AclTypes
  import opened AclNames
  import opened AclAci
  import opened AclMatching
  import opened AclPolicy

  // ----- batching values -----

  /** The subject matchers the batching scan accepts. */
  predicate BatchableWho(who: Who) {
    who.WhoAny? || who.WhoAnonymous? || who.WhoUsers? || who.WhoSelf? || who.WhoDN? || who.WhoPeerName? ||
    who.WhoSockName? || who.WhoDomain? || who.WhoSockURL? || who.WhoSSF?
  }

  predicate BatchableClause(clause: ByClause) {
    !clause.grant.selfValue && !clause.grant.realSelfValue &&
    forall i :: 0 <= i < |clause.who| ==> BatchableWho(clause.who[i].who)
  }

  /** rulesCanBatchValues. */
  predicate RulesCanBatchValues(rules: seq<Rule>) {
    forall i :: 0 <= i < |rules| ==>
      rules[i].target.value.None? && rules[i].target.filter.None? &&
      forall j :: 0 <= j < |rules[i].clauses| ==> BatchableClause(rules[i].clauses[j])
  }

  /** CanBatchValues. */
  predicate CanBatchValues(policy: Policy) {
    RulesCanBatchValues(policy.global) &&
    forall i :: 0 <= i < |policy.databases| ==> RulesCanBatchValues(policy.databases[i].rules)
  }

  lemma SelectorIgnoresValue(services: Services, selector: TargetSelector, a: Target, b: Target, targetDN: DN)
    requires selector.value.None? && selector.filter.None? && b == a.(value := b.value)
    ensures MatchTarget(services, selector, a, targetDN) == MatchTarget(services, selector, b, targetDN)
  {
    assert forall s :: AttributeSelected(services, s, a) == AttributeSelected(services, s, b);
    hide AttributeSelected, TargetDNMatches;
  }

  lemma WhoIgnoresValue(services: Services, matcher: WhoMatcher, a: Query, b: Query, readerA: Reader, readerB: Reader)
    requires BatchableWho(matcher.who) && b == a.(target := a.target.(value := b.target.value))
    ensures MatchesOneWho(services, matcher, a, readerA) == MatchesOneWho(services, matcher, b, readerB)
    ensures MatchesOneWho(services, matcher, a, readerA).lookups == []
  {
    hide MatchesSelfLevel, MatchesExpandedDN, MatchesString, EntryContainsDN;
  }

  lemma {:induction false} MatchersIgnoreValue(services: Services, matchers: seq<WhoMatcher>, a: Query, b: Query,
                                               readerA: Reader, readerB: Reader, soFar: WhoMatch)
    requires forall i :: 0 <= i < |matchers| ==> BatchableWho(matchers[i].who)
    requires b == a.(target := a.target.(value := b.target.value)) && soFar.lookups == []
    ensures MatchAll(services, matchers, a, readerA, soFar) == MatchAll(services, matchers, b, readerB, soFar)
    ensures MatchAll(services, matchers, a, readerA, soFar).lookups == []
    ensures MatchAll(services, matchers, a, readerA, soFar).dynamic == true ==> soFar.dynamic
    decreases |matchers|
  {
    if matchers != [] {
      WhoIgnoresValue(services, matchers[0], a, b, readerA, readerB);
      assert soFar.lookups + [] == [];
      assert soFar.(lookups := soFar.lookups + []) == soFar;
      MatchersIgnoreValue(services, matchers[1..], a, b, readerA, readerB, soFar);
      hide MatchesOneWho, MatcherMask;
    }
  }

  lemma ClauseIgnoresValue(services: Services, clause: ByClause, a: Query, b: Query, readerA: Reader, readerB: Reader)
    requires BatchableClause(clause) && b == a.(target := a.target.(value := b.target.value))
    ensures MatchesWho(services, clause.who, clause.grant, a, readerA) ==
            MatchesWho(services, clause.who, clause.grant, b, readerB)
    ensures MatchesWho(services, clause.who, clause.grant, a, readerA).lookups == []
  {
    MatchersIgnoreValue(services, clause.who, a, b, readerA, readerB, WhoMatch(true, false, NoMask, []));
    hide MatchAll, BatchableWho;
  }

  lemma {:induction false} ClausesIgnoreValue(services: Services, clauses: seq<ByClause>, a: Query, b: Query,
                                              required: Privilege, readerA: Reader, readerB: Reader,
                                              current: Privilege)
    requires forall i :: 0 <= i < |clauses| ==> BatchableClause(clauses[i])
    requires b == a.(target := a.target.(value := b.target.value))
    ensures RunClauses(services, clauses, a, required, readerA, current) ==
            RunClauses(services, clauses, b, required, readerB, current)
    ensures RunClauses(services, clauses, a, required, readerA, current).lookups == []
    decreases |clauses|
  {
    if clauses != [] {
      ClauseIgnoresValue(services, clauses[0], a, b, readerA, readerB);
      hide MatchesWho, BatchableClause;
      var found := MatchesWho(services, clauses[0].who, clauses[0].grant, a, readerA);
      var after := if Applies(clauses[0], found, required) then After(clauses[0], found, current) else current;
      ClausesIgnoreValue(services, clauses[1..], a, b, required, readerA, readerB, after);
      hide Applies, After;
    }
  }

  lemma {:induction false} RulesIgnoreValue(services: Services, rules: seq<Rule>, a: Request, b: Request,
                                            readerA: Reader, readerB: Reader, current: Privilege)
    requires RulesCanBatchValues(rules) && b == a.(target := a.target.(value := b.target.value))
    ensures RunRules(services, rules, a, readerA, current) == RunRules(services, rules, b, readerB, current)
    ensures RunRules(services, rules, a, readerA, current).lookups == []
    decreases |rules|
  {
    if rules != [] {
      SelectorIgnoresValue(services, rules[0].target, a.target, b.target, a.targetDN);
      assert RulesCanBatchValues(rules[1..]);
      hide MatchTarget, RulesCanBatchValues, BatchableClause;
      match MatchTarget(services, rules[0].target, a.target, a.targetDN) {
        case None => RulesIgnoreValue(services, rules[1..], a, b, readerA, readerB, current);
        case Some(context) =>
          ClausesIgnoreValue(services, rules[0].clauses, QueryOf(a, context), QueryOf(b, context), a.required,
                             readerA, readerB, current);
          var here := RunClauses(services, rules[0].clauses, QueryOf(a, context), a.required, readerA, current);
          hide RunClauses;
          RulesIgnoreValue(services, rules[1..], a, b, readerA, readerB, here.privileges);
      }
    }
  }

  lemma {:induction false} DatabaseCanBatch(services: Services, databases: seq<DatabaseRules>, target: DN,
                                            normalizer: bool)
    requires forall i :: 0 <= i < |databases| ==> RulesCanBatchValues(databases[i].rules)
    ensures RulesCanBatchValues(DatabaseFor(services, databases, target, normalizer))
  {
    if databases != [] {
      DatabaseCanBatch(services, databases[1..], target, normalizer);
      hide Covers;
    }
  }

  /**
   * The scan is sound: when it says yes, the decision is the same for any two values of the attribute and any two
   * readers, and no reader is ever called.
   */
  lemma BatchingIsSound(services: Services, policy: Policy, subject: Subject, a: Target, b: Target,
                        required: Privilege, readerA: Reader, readerB: Reader)
    requires CanBatchValues(policy) && b == a.(value := b.value)
    ensures Decide(services, policy, subject, a, required, readerA) ==
            Decide(services, policy, subject, b, required, readerB)
    ensures Decide(services, policy, subject, a, required, readerA).lookups == []
  {
    var parsed := services.parseDN(a.entry.dn, a.normalizer);
    if parsed.Some? {
      DatabaseCanBatch(services, policy.databases, parsed.value, a.normalizer);
      var database := DatabaseFor(services, policy.databases, parsed.value, a.normalizer);
      assert RulesCanBatchValues(database + policy.global);
      hide DatabaseFor, RulesCanBatchValues;
      RulesIgnoreValue(services, database + policy.global, Request(subject, a, parsed.value, required),
                       Request(subject, b, parsed.value, required), readerA, readerB, {});
      hide RunRules;
    }
  }

  // ----- nothing beyond what matching clauses grant -----

  function Granted(clauses: seq<ByClause>): Privilege {
    if clauses == [] then {} else clauses[0].grant.privileges + Granted(clauses[1..])
  }

  lemma {:induction false} GrantedConcat(a: seq<ByClause>, b: seq<ByClause>)
    ensures Granted(a + b) == Granted(a) + Granted(b)
  {
    if a == [] {
      assert a + b == b;
    } else {
      assert (a + b)[1..] == a[1..] + b;
      GrantedConcat(a[1..], b);
    }
  }

  /** The clause matched the subject, in a rule about the target. */
  ghost predicate Matched(services: Services, rules: seq<Rule>, request: Request, reader: Reader, clause: ByClause) {
    exists rule :: rule in rules && MatchedIn(services, rule, request, reader, clause)
  }

  ghost predicate MatchedIn(services: Services, rule: Rule, request: Request, reader: Reader, clause: ByClause) {
    clause in rule.clauses &&
    MatchTarget(services, rule.target, request.target, request.targetDN).Some? &&
    MatchesWho(services, clause.who, clause.grant,
               QueryOf(request, MatchTarget(services, rule.target, request.target, request.targetDN).value),
               reader).matched
  }

  lemma AfterBound(clause: ByClause, found: WhoMatch, current: Privilege)
    ensures After(clause, found, current) <= current + clause.grant.privileges
  {
  }

  /** The claim of ClausesBound about one run. */
  ghost predicate Bounded(services: Services, clauses: seq<ByClause>, query: Query, reader: Reader, current: Privilege,
                          end: Outcome)
  {
    end.privileges <= current + Granted(end.applied) &&
    forall c :: c in end.applied ==> c in clauses && MatchesWho(services, c.who, c.grant, query, reader).matched
  }

  lemma BoundedPassed(services: Services, clauses: seq<ByClause>, query: Query, reader: Reader, current: Privilege,
                      lookups: seq<DN>, end: Outcome)
    requires clauses != [] && Bounded(services, clauses[1..], query, reader, current, end)
    ensures Bounded(services, clauses, query, reader, current, Preceded([], lookups, end))
  {
    assert [] + end.applied == end.applied;
    hide MatchesWho, Granted;
  }

  lemma BoundedApplied(services: Services, clauses: seq<ByClause>, query: Query, reader: Reader, current: Privilege,
                       after: Privilege, lookups: seq<DN>, end: Outcome)
    requires clauses != [] && Bounded(services, clauses[1..], query, reader, after, end)
    requires MatchesWho(services, clauses[0].who, clauses[0].grant, query, reader).matched
    requires after <= current + clauses[0].grant.privileges
    ensures Bounded(services, clauses, query, reader, current, Preceded([clauses[0]], lookups, end))
  {
    assert Granted([clauses[0]]) == clauses[0].grant.privileges;
    GrantedConcat([clauses[0]], end.applied);
    hide MatchesWho, Granted;
  }

  lemma {:induction false} ClausesBound(services: Services, clauses: seq<ByClause>, query: Query, required: Privilege,
                                        reader: Reader, current: Privilege)
    ensures Bounded(services, clauses, query, reader, current,
                    RunClauses(services, clauses, query, required, reader, current))
    decreases |clauses|
  {
    if clauses != [] {
      var clause := clauses[0];
      var found := MatchesWho(services, clause.who, clause.grant, query, reader);
      var applies, after := Applies(clause, found, required), After(clause, found, current);
      assert applies ==> found.matched;
      AfterBound(clause, found, current);
      if !applies {
        Passed(services, clauses, query, required, reader, current);
        hide MatchesWho, RunClauses, Bounded, Applies, After, Preceded;
        ClausesBound(services, clauses[1..], query, required, reader, current);
        BoundedPassed(services, clauses, query, reader, current, found.lookups,
                      RunClauses(services, clauses[1..], query, required, reader, current));
      } else {
        Applied(services, clauses, query, required, reader, current, after);
        ClausesBound(services, clauses[1..], query, required, reader, after);
        BoundedEnd(services, clauses[1..], query, reader, after);
        hide MatchesWho, RunClauses, Bounded, Applies, After, Preceded;
        var end := match clause.control
          case Stop => Outcome(Stopped, after, [], [])
          case Break => Outcome(Broke, after, [], [])
          case Continue => RunClauses(services, clauses[1..], query, required, reader, after);
        BoundedApplied(services, clauses, query, reader, current, after, found.lookups, end);
      }
    }
  }

  lemma BoundedEnd(services: Services, clauses: seq<ByClause>, query: Query, reader: Reader, current: Privilege)
    ensures Bounded(services, clauses, query, reader, current, Outcome(Stopped, current, [], []))
    ensures Bounded(services, clauses, query, reader, current, Outcome(Broke, current, [], []))
  {
  }

  lemma {:induction false} RulesBound(services: Services, rules: seq<Rule>, request: Request, reader: Reader,
                                      current: Privilege)
    ensures var end := RunRules(services, rules, request, reader, current);
            end.privileges <= current + Granted(end.applied) &&
            forall c :: c in end.applied ==> Matched(services, rules, request, reader, c)
    decreases |rules|
  {
    if rules != [] {
      var context := MatchTarget(services, rules[0].target, request.target, request.targetDN);
      if context.None? {
        RulesBound(services, rules[1..], request, reader, current);
        hide MatchTarget, MatchedIn;
        Widen(services, rules, request, reader);
      } else {
        var query := QueryOf(request, context.value);
        ClausesBound(services, rules[0].clauses, query, request.required, reader, current);
        var here := RunClauses(services, rules[0].clauses, query, request.required, reader, current);
        assert forall c :: c in here.applied ==> MatchedIn(services, rules[0], request, reader, c);
        hide MatchTarget, MatchedIn, MatchesWho, RunClauses;
        RuleDecides(services, rules, request, reader, current, context.value);
        RulesBound(services, rules[1..], request, reader, here.privileges);
        var rest := RunRules(services, rules[1..], request, reader, here.privileges);
        GrantedConcat(here.applied, rest.applied);
        Widen(services, rules, request, reader);
        hide RunRules;
      }
    }
  }

  lemma Widen(services: Services, rules: seq<Rule>, request: Request, reader: Reader)
    requires rules != []
    ensures forall c :: Matched(services, rules[1..], request, reader, c) ==> Matched(services, rules, request, reader, c)
    ensures forall c :: MatchedIn(services, rules[0], request, reader, c) ==> Matched(services, rules, request, reader, c)
  {
    hide MatchedIn;
  }

  /**
   * When some rule list applies, access is only ever granted out of the privileges listed by clauses that matched:
   * those that were applied on the way to the decision, in rules about the target.
   */
  lemma NothingBeyondMatchedGrants(services: Services, policy: Policy, subject: Subject, target: Target,
                                   required: Privilege, reader: Reader, targetDN: DN)
    requires services.parseDN(target.entry.dn, target.normalizer) == Some(targetDN)
    requires RulesFor(services, policy, targetDN, target.normalizer) != []
    requires Decide(services, policy, subject, target, required, reader).allowed
    ensures var applied := Decide(services, policy, subject, target, required, reader).applied;
            required <= Granted(applied) &&
            forall c :: c in applied ==>
              Matched(services, RulesFor(services, policy, targetDN, target.normalizer),
                      Request(subject, target, targetDN, required), reader, c)
  {
    hide RulesFor, RunRules;
    RulesBound(services, RulesFor(services, policy, targetDN, target.normalizer),
               Request(subject, target, targetDN, required), reader, {});
    hide Matched;
  }

  // ----- asking together or one by one -----

  /** No clause of the rules consults ACI values. */
  predicate NoAci(rules: seq<Rule>) {
    forall i, j, k :: 0 <= i < |rules| && 0 <= j < |rules[i].clauses| && 0 <= k < |rules[i].clauses[j].who| ==>
      !rules[i].clauses[j].who[k].who.WhoACI?
  }

  lemma {:induction false} MatchersStatic(services: Services, matchers: seq<WhoMatcher>, query: Query, reader: Reader,
                                          soFar: WhoMatch)
    requires forall i :: 0 <= i < |matchers| ==> !matchers[i].who.WhoACI?
    requires !soFar.dynamic
    ensures !MatchAll(services, matchers, query, reader, soFar).dynamic
    decreases |matchers|
  {
    if matchers != [] {
      var looked := MatchesOneWho(services, matchers[0], query, reader);
      hide MatchesOneWho, MatcherMask;
      if looked.matched {
        MatchersStatic(services, matchers[1..], query, reader, soFar.(lookups := soFar.lookups + looked.lookups));
      }
    }
  }

  lemma ClauseStatic(services: Services, clause: ByClause, query: Query, reader: Reader)
    requires forall i :: 0 <= i < |clause.who| ==> !clause.who[i].who.WhoACI?
    ensures !MatchesWho(services, clause.who, clause.grant, query, reader).dynamic
  {
    MatchersStatic(services, clause.who, query, reader, WhoMatch(true, false, NoMask, []));
    hide MatchAll;
  }

  predicate ConsultsAci(clause: ByClause) { exists k :: 0 <= k < |clause.who| && clause.who[k].who.WhoACI? }

  /** Every clause that consults ACI values lists all of p exactly when it lists all of q. */
  predicate ListsAgree(rules: seq<Rule>, p: Privilege, q: Privilege) {
    forall i, j :: 0 <= i < |rules| && 0 <= j < |rules[i].clauses| ==> ClauseAgrees(rules[i].clauses[j], p, q)
  }

  predicate ClauseAgrees(clause: ByClause, p: Privilege, q: Privilege) {
    ConsultsAci(clause) ==> (Holds(clause.grant.privileges, p) <==> Holds(clause.grant.privileges, q))
  }

  lemma AppliesAlike(services: Services, clause: ByClause, query: Query, reader: Reader, p: Privilege, q: Privilege)
    requires ClauseAgrees(clause, p, q)
    ensures var found := MatchesWho(services, clause.who, clause.grant, query, reader);
            Applies(clause, found, p) == Applies(clause, found, q)
  {
    if !ConsultsAci(clause) { ClauseStatic(services, clause, query, reader); }
    hide MatchesWho;
  }

  lemma {:induction false} ClausesIgnoreRequired(services: Services, clauses: seq<ByClause>, query: Query, p: Privilege,
                                                 q: Privilege, reader: Reader, current: Privilege)
    requires forall j :: 0 <= j < |clauses| ==> ClauseAgrees(clauses[j], p, q)
    ensures RunClauses(services, clauses, query, p, reader, current) ==
            RunClauses(services, clauses, query, q, reader, current)
    decreases |clauses|
  {
    if clauses != [] {
      AppliesAlike(services, clauses[0], query, reader, p, q);
      var found := MatchesWho(services, clauses[0].who, clauses[0].grant, query, reader);
      hide MatchesWho, ClauseAgrees;
      var after := if Applies(clauses[0], found, p) then After(clauses[0], found, current) else current;
      ClausesIgnoreRequired(services, clauses[1..], query, p, q, reader, after);
      hide After, Applies;
    }
  }

  lemma {:induction false} RulesIgnoreRequired(services: Services, rules: seq<Rule>, a: Request, b: Request,
                                               reader: Reader, current: Privilege)
    requires ListsAgree(rules, a.required, b.required) && b == a.(required := b.required)
    ensures RunRules(services, rules, a, reader, current) == RunRules(services, rules, b, reader, current)
    decreases |rules|
  {
    if rules != [] {
      var context := MatchTarget(services, rules[0].target, a.target, a.targetDN);
      hide MatchTarget, ClauseAgrees;
      assert ListsAgree(rules[1..], a.required, b.required);
      if context.None? {
        RulesIgnoreRequired(services, rules[1..], a, b, reader, current);
      } else {
        var query := QueryOf(a, context.value);
        ClausesIgnoreRequired(services, rules[0].clauses, query, a.required, b.required, reader, current);
        hide ListsAgree;
        var here := RunClauses(services, rules[0].clauses, query, a.required, reader, current);
        hide RunClauses;
        RulesIgnoreRequired(services, rules[1..], a, b, reader, here.privileges);
      }
    }
  }

  predicate PolicyListsAgree(policy: Policy, p: Privilege, q: Privilege) {
    ListsAgree(policy.global, p, q) &&
    forall i :: 0 <= i < |policy.databases| ==> ListsAgree(policy.databases[i].rules, p, q)
  }

  lemma UnionAgrees(rules: seq<Rule>, p: Privilege, q: Privilege)
    requires ListsAgree(rules, p, q)
    ensures ListsAgree(rules, p + q, p) && ListsAgree(rules, p + q, q)
  {
    hide ConsultsAci;
  }

  /** Where every ACI clause lists all of p exactly when it lists all of q, asking for both is asking for each. */
  lemma AskedTogetherWhereListsAgree(services: Services, policy: Policy, subject: Subject, target: Target,
                                     p: Privilege, q: Privilege, reader: Reader)
    requires PolicyListsAgree(policy, p, q)
    ensures Decide(services, policy, subject, target, p + q, reader).allowed <==>
            Decide(services, policy, subject, target, p, reader).allowed &&
            Decide(services, policy, subject, target, q, reader).allowed
  {
    var parsed := services.parseDN(target.entry.dn, target.normalizer);
    if parsed.Some? {
      DatabaseListsAgree(services, policy.databases, parsed.value, target.normalizer, p, q);
      var rules := RulesFor(services, policy, parsed.value, target.normalizer);
      hide ClauseAgrees;
      assert ListsAgree(rules, p, q);
      UnionAgrees(rules, p, q);
      hide RulesFor, ListsAgree;
      var whole := Request(subject, target, parsed.value, p + q);
      RulesIgnoreRequired(services, rules, whole, whole.(required := p), reader, {});
      RulesIgnoreRequired(services, rules, whole, whole.(required := q), reader, {});
      hide RunRules;
    }
  }

  lemma {:induction false} DatabaseListsAgree(services: Services, databases: seq<DatabaseRules>, target: DN,
                                              normalizer: bool, p: Privilege, q: Privilege)
    requires forall i :: 0 <= i < |databases| ==> ListsAgree(databases[i].rules, p, q)
    ensures ListsAgree(DatabaseFor(services, databases, target, normalizer), p, q)
  {
    if databases != [] {
      DatabaseListsAgree(services, databases[1..], target, normalizer, p, q);
      hide Covers, ClauseAgrees;
    }
  }

  lemma NoAciAgrees(rules: seq<Rule>, p: Privilege, q: Privilege)
    requires NoAci(rules)
    ensures ListsAgree(rules, p, q)
  {
  }

  /** Without ACI clauses the mask reached does not depend on what is asked: a request is granted iff its parts are. */
  lemma AskedTogether(services: Services, policy: Policy, subject: Subject, target: Target, p: Privilege, q: Privilege,
                      reader: Reader)
    requires NoAci(policy.global) && forall i :: 0 <= i < |policy.databases| ==> NoAci(policy.databases[i].rules)
    ensures Decide(services, policy, subject, target, p + q, reader).allowed <==>
            Decide(services, policy, subject, target, p, reader).allowed &&
            Decide(services, policy, subject, target, q, reader).allowed
  {
    NoAciAgrees(policy.global, p, q);
    forall i | 0 <= i < |policy.databases| ensures ListsAgree(policy.databases[i].rules, p, q) {
      NoAciAgrees(policy.databases[i].rules, p, q);
    }
    hide ListsAgree, Decide;
    AskedTogetherWhereListsAgree(services, policy, subject, target, p, q, reader);
  }

  // ----- the default, without looking at the target -----

  datatype DefaultAnswer = DefaultAnswer(allowed: bool, applicable: bool)

  /** DefaultDNAllowed. */
  function DefaultDNAllowed(services: Services, policy: Policy, rawDN: string, normalizer: bool,
                            required: Privilege): DefaultAnswer
  {
    if policy.global != [] || exists i :: 0 <= i < |policy.databases| && policy.databases[i].rules != []
    then DefaultAnswer(false, false)
    else
      var targetDN := services.parseDN(rawDN, normalizer);
      DefaultAnswer(targetDN.Some? && Holds(DefaultPrivileges(targetDN.value), required), true)
  }

  lemma {:induction false} DatabaseEmpty(services: Services, databases: seq<DatabaseRules>, target: DN,
                                         normalizer: bool)
    requires forall i :: 0 <= i < |databases| ==> databases[i].rules == []
    ensures DatabaseFor(services, databases, target, normalizer) == []
  {
    if databases != [] {
      DatabaseEmpty(services, databases[1..], target, normalizer);
      hide Covers;
    }
  }

  /** Where the default is said to be applicable, it is the decision for every subject, attribute, value and reader. */
  lemma DefaultIsTheDecision(services: Services, policy: Policy, subject: Subject, target: Target, required: Privilege,
                             reader: Reader)
    requires DefaultDNAllowed(services, policy, target.entry.dn, target.normalizer, required).applicable
    ensures Decide(services, policy, subject, target, required, reader) ==
            Decision(DefaultDNAllowed(services, policy, target.entry.dn, target.normalizer, required).allowed, [], [])
  {
    var parsed := services.parseDN(target.entry.dn, target.normalizer);
    if parsed.Some? {
      DatabaseEmpty(services, policy.databases, parsed.value, target.normalizer);
      hide DatabaseFor, RunRules;
    }
  }
}
