/** Which rules of a list matter: those about the target, up to the first that cannot pass the decision on. */
module AclRuleLists {
  import opened Text
  import opened AclTypes
  import opened AclAci
  import opened AclMatching
  import opened AclPolicy

  predicate About(services: Services, rule: Rule, request: Request) {
    MatchTarget(services, rule.target, request.target, request.targetDN).Some?
  }

  /** The rules about the target, in order. */
  function Relevant(services: Services, rules: seq<Rule>, request: Request): seq<Rule> {
    if rules == [] then []
    else (if About(services, rules[0], request) then [rules[0]] else []) + Relevant(services, rules[1..], request)
  }

  lemma UnmatchedFirst(services: Services, rule: Rule, rest: seq<Rule>, request: Request, reader: Reader,
                       current: Privilege)
    requires !About(services, rule, request)
    ensures RunRules(services, [rule] + rest, request, reader, current) ==
            RunRules(services, rest, request, reader, current)
  {
    hide MatchTarget, RunClauses;
    assert ([rule] + rest)[1..] == rest;
  }

  lemma MatchedFirst(services: Services, rule: Rule, a: seq<Rule>, b: seq<Rule>, request: Request, reader: Reader,
                     current: Privilege)
    requires About(services, rule, request)
    requires forall p :: RunRules(services, a, request, reader, p) == RunRules(services, b, request, reader, p)
    ensures RunRules(services, [rule] + a, request, reader, current) ==
            RunRules(services, [rule] + b, request, reader, current)
  {
    var context := MatchTarget(services, rule.target, request.target, request.targetDN).value;
    hide MatchTarget, RunClauses;
    assert ([rule] + a)[1..] == a && ([rule] + b)[1..] == b;
    RuleDecides(services, [rule] + a, request, reader, current, context);
    RuleDecides(services, [rule] + b, request, reader, current, context);
    hide RunRules;
  }

  /** Rules that are not about the target change nothing, wherever they stand. */
  lemma {:induction false} UnmatchedRulesIrrelevant(services: Services, rules: seq<Rule>, request: Request,
                                                    reader: Reader)
    ensures forall current :: RunRules(services, rules, request, reader, current) ==
                              RunRules(services, Relevant(services, rules, request), request, reader, current)
    decreases |rules|
  {
    if rules != [] {
      var rule, rest := rules[0], rules[1..];
      var relevant := Relevant(services, rest, request);
      UnmatchedRulesIrrelevant(services, rest, request, reader);
      assert rules == [rule] + rest;
      assert [] + relevant == relevant;
      forall current: Privilege
        ensures RunRules(services, rules, request, reader, current) ==
                RunRules(services, Relevant(services, rules, request), request, reader, current)
      {
        hide RunRules;
        if About(services, rule, request) {
          hide About;
          MatchedFirst(services, rule, rest, relevant, request, reader, current);
        } else {
          hide About;
          UnmatchedFirst(services, rule, rest, request, reader, current);
        }
      }
    }
  }

  predicate Breakless(clauses: seq<ByClause>) { forall i :: 0 <= i < |clauses| ==> clauses[i].control != Break }

  lemma {:induction false} BreaklessNeverBreaks(services: Services, clauses: seq<ByClause>, query: Query,
                                                required: Privilege, reader: Reader, current: Privilege)
    requires Breakless(clauses)
    ensures RunClauses(services, clauses, query, required, reader, current).ending != Broke
    decreases |clauses|
  {
    if clauses != [] {
      var found := MatchesWho(services, clauses[0].who, clauses[0].grant, query, reader);
      hide MatchesWho;
      BreaklessNeverBreaks(services, clauses[1..], query, required, reader, current);
      BreaklessNeverBreaks(services, clauses[1..], query, required, reader, After(clauses[0], found, current));
      hide Applies, After;
    }
  }

  /** A rule about the target without a break clause ends the search: whatever follows it is never looked at. */
  lemma {:induction false} BreaklessRuleDecides(services: Services, front: seq<Rule>, rule: Rule, back: seq<Rule>,
                                                request: Request, reader: Reader)
    requires About(services, rule, request) && Breakless(rule.clauses)
    ensures forall current :: RunRules(services, front + ([rule] + back), request, reader, current) ==
                              RunRules(services, front + [rule], request, reader, current)
    decreases |front|
  {
    if front == [] {
      assert front + ([rule] + back) == [rule] + back && front + [rule] == [rule];
      var context := MatchTarget(services, rule.target, request.target, request.targetDN).value;
      hide MatchTarget, Breakless;
      forall current: Privilege
        ensures RunRules(services, [rule] + back, request, reader, current) ==
                RunRules(services, [rule], request, reader, current)
      {
        BreaklessNeverBreaks(services, rule.clauses, QueryOf(request, context), request.required, reader, current);
        hide RunClauses;
        RuleDecides(services, [rule] + back, request, reader, current, context);
        RuleDecides(services, [rule], request, reader, current, context);
        hide RunRules;
      }
    } else {
      var first, rest := front[0], front[1..];
      BreaklessRuleDecides(services, rest, rule, back, request, reader);
      assert front + ([rule] + back) == [first] + (rest + ([rule] + back));
      assert front + [rule] == [first] + (rest + [rule]);
      hide Breakless;
      forall current: Privilege
        ensures RunRules(services, [first] + (rest + ([rule] + back)), request, reader, current) ==
                RunRules(services, [first] + (rest + [rule]), request, reader, current)
      {
        hide RunRules;
        if About(services, first, request) {
          hide About;
          MatchedFirst(services, first, rest + ([rule] + back), rest + [rule], request, reader, current);
        } else {
          hide About;
          UnmatchedFirst(services, first, rest + ([rule] + back), request, reader, current);
          UnmatchedFirst(services, first, rest + [rule], request, reader, current);
        }
      }
    }
  }

  /**
   * A denial in an ACI mask removes privileges already held exactly when the mask grants nothing the clause lists;
   * otherwise it only limits what the mask itself grants.
   */
  lemma DenialTakesEffect(current: Privilege, listed: Privilege, mask: Mask)
    requires mask.deny != {}
    ensures ApplyMask(current, listed, mask) !! mask.deny <==> mask.grant * listed == {} || current !! mask.deny
  {
    var grant := mask.grant * listed;
    if grant != {} {
      assert (current + (grant - mask.deny)) * mask.deny == current * mask.deny;
    }
  }
}
