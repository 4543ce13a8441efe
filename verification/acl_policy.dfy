/** The decision: which rules apply to a target, and what their clauses leave of the privileges asked for. */
module AclPolicy {
  import opened Text
  import opened AclTypes
  import opened AclNames
  import opened AclAci
  import opened AclMatching

  const ConfigSuffix: DN := ["cn=config"]

  /** defaultPrivileges: nothing at or under cn=config, read access elsewhere. */
  function DefaultPrivileges(target: DN): Privilege {
    if ConfigSuffix == target || AncestorOf(ConfigSuffix, target) then {} else ReadLevel
  }

  /** applyGrant. */
  function ApplyGrant(current: Privilege, grant: Grant): Privilege {
    match grant.mode
    case GrantSet => grant.privileges
    case GrantAdd => current + grant.privileges
    case GrantRemove => current - grant.privileges
    case GrantIdentity => current
  }

  /** What an ACI mask does to the privileges, within those the clause lists. */
  function ApplyMask(current: Privilege, listed: Privilege, mask: Mask): Privilege {
    var grant := mask.grant * listed;
    if mask.deny == {} then current + grant
    else if grant == {} then current - mask.deny
    else current + (grant - mask.deny)
  }

  // ----- the rules for a target -----

  /** This database's suffix holds the target. */
  predicate Covers(services: Services, database: DatabaseRules, target: DN, normalizer: bool) {
    match NormalizeDN(services, database.suffix, normalizer)
    case None => false
    case Some(suffix) => suffix == target || AncestorOf(suffix, target)
  }

  /** The rules of the first database that covers the target. */
  function DatabaseFor(services: Services, databases: seq<DatabaseRules>, target: DN, normalizer: bool): seq<Rule> {
    if databases == [] then []
    else if Covers(services, databases[0], target, normalizer) then databases[0].rules
    else DatabaseFor(services, databases[1..], target, normalizer)
  }

  /** rulesFor: the database's rules, then the global ones. */
  function RulesFor(services: Services, policy: Policy, target: DN, normalizer: bool): seq<Rule> {
    DatabaseFor(services, policy.databases, target, normalizer) + policy.global
  }

  /** rulesFor: the rules of the first covering database, then the global ones. */
  method FindRules(services: Services, policy: Policy, target: DN, normalizer: bool) returns (rules: seq<Rule>)
    ensures rules == RulesFor(services, policy, target, normalizer)
  {
    var database: seq<Rule> := [];
    assert policy.databases[0..] == policy.databases;
    for i := 0 to |policy.databases|
      invariant database == []
      invariant DatabaseFor(services, policy.databases[i..], target, normalizer) ==
                DatabaseFor(services, policy.databases, target, normalizer)
    {
      hide Covers;
      var candidate := policy.databases[i];
      assert policy.databases[i..][0] == candidate && policy.databases[i..][1..] == policy.databases[i + 1..];
      if Covers(services, candidate, target, normalizer) {
        database := candidate.rules;
        break;
      }
    }
    assert database == DatabaseFor(services, policy.databases, target, normalizer);
    assert [] + policy.global == policy.global && database + [] == database;
    if |database| == 0 { return policy.global; }
    if |policy.global| == 0 { return database; }
    rules := database + policy.global;
  }

  // ----- clauses -----

  datatype Ending = Stopped | Broke | FellThrough

  /** How the clauses of a rule ended, the privileges then, and the clauses that were applied on the way. */
  datatype Outcome = Outcome(ending: Ending, privileges: Privilege, applied: seq<ByClause>, lookups: seq<DN>)

  /** A matched clause is passed over when it is dynamic and does not list everything asked for. */
  predicate Applies(clause: ByClause, found: WhoMatch, required: Privilege) {
    found.matched && (found.dynamic ==> Holds(clause.grant.privileges, required))
  }

  function After(clause: ByClause, found: WhoMatch, current: Privilege): Privilege {
    if found.dynamic then ApplyMask(current, clause.grant.privileges, found.mask) else ApplyGrant(current, clause.grant)
  }

  /** The outcome of the later clauses, with this clause and its lookups before it. */
  function Preceded(applied: seq<ByClause>, lookups: seq<DN>, later: Outcome): Outcome {
    later.(applied := applied + later.applied, lookups := lookups + later.lookups)
  }

  function RunClauses(services: Services, clauses: seq<ByClause>, query: Query, required: Privilege, reader: Reader,
                      current: Privilege): Outcome
  {
    if clauses == [] then Outcome(FellThrough, current, [], [])
    else
      var found := MatchesWho(services, clauses[0].who, clauses[0].grant, query, reader);
      if !Applies(clauses[0], found, required) then
        Preceded([], found.lookups, RunClauses(services, clauses[1..], query, required, reader, current))
      else
        var after := After(clauses[0], found, current);
        match clauses[0].control
        case Stop => Outcome(Stopped, after, [clauses[0]], found.lookups)
        case Break => Outcome(Broke, after, [clauses[0]], found.lookups)
        case Continue =>
          Preceded([clauses[0]], found.lookups, RunClauses(services, clauses[1..], query, required, reader, after))
  }

  // ----- rules -----

  datatype Request = Request(subject: Subject, target: Target, targetDN: DN, required: Privilege)

  function QueryOf(request: Request, context: MatchContext): Query {
    Query(request.subject, request.target, request.targetDN, context)
  }

  /**
   * The rules in turn. A rule about the target decides, unless one of its clauses breaks to the next rule; falling
   * through the clauses of a rule, or off the end of the rules, denies.
   */
  function RunRules(services: Services, rules: seq<Rule>, request: Request, reader: Reader, current: Privilege): Outcome
  {
    if rules == [] then Outcome(FellThrough, current, [], [])
    else
      match MatchTarget(services, rules[0].target, request.target, request.targetDN)
      case None => RunRules(services, rules[1..], request, reader, current)
      case Some(context) =>
        var here := RunClauses(services, rules[0].clauses, QueryOf(request, context), request.required, reader, current);
        if here.ending != Broke then here
        else Preceded(here.applied, here.lookups, RunRules(services, rules[1..], request, reader, here.privileges))
  }

  datatype Decision = Decision(allowed: bool, applied: seq<ByClause>, lookups: seq<DN>)

  function DecideRules(services: Services, rules: seq<Rule>, request: Request, reader: Reader): Decision {
    if rules == [] then Decision(Holds(DefaultPrivileges(request.targetDN), request.required), [], [])
    else
      var end := RunRules(services, rules, request, reader, {});
      Decision(end.ending == Stopped && Holds(end.privileges, request.required), end.applied, end.lookups)
  }

  function Decide(services: Services, policy: Policy, subject: Subject, target: Target, required: Privilege,
                  reader: Reader): Decision
  {
    match services.parseDN(target.entry.dn, target.normalizer)
    case None => Decision(false, [], [])
    case Some(targetDN) =>
      DecideRules(services, RulesFor(services, policy, targetDN, target.normalizer),
                  Request(subject, target, targetDN, required), reader)
  }

  // ----- the methods -----

  /** Where the run stands: the trace, the applied clauses, and what is still to come. */
  ghost predicate Leads(whole: Outcome, applied: seq<ByClause>, lookups: seq<DN>, rest: Outcome) {
    whole == Preceded(applied, lookups, rest)
  }

  lemma LeadsOn(whole: Outcome, applied: seq<ByClause>, lookups: seq<DN>, moreApplied: seq<ByClause>,
                moreLookups: seq<DN>, rest: Outcome)
    requires Leads(whole, applied, lookups, Preceded(moreApplied, moreLookups, rest))
    ensures Leads(whole, applied + moreApplied, lookups + moreLookups, rest)
  {
    assert applied + (moreApplied + rest.applied) == applied + moreApplied + rest.applied;
    assert lookups + (moreLookups + rest.lookups) == lookups + moreLookups + rest.lookups;
  }

  lemma LeadsEnd(whole: Outcome, applied: seq<ByClause>, lookups: seq<DN>, rest: Outcome)
    requires Leads(whole, applied, lookups, rest)
    ensures whole.ending == rest.ending && whole.privileges == rest.privileges
    ensures whole.applied == applied + rest.applied && whole.lookups == lookups + rest.lookups
  {
  }

  lemma LeadsStart(whole: Outcome)
    ensures Leads(whole, [], [], whole)
  {
    assert [] + whole.applied == whole.applied && [] + whole.lookups == whole.lookups;
  }

  lemma Passed(services: Services, clauses: seq<ByClause>, query: Query, required: Privilege, reader: Reader,
               current: Privilege)
    requires clauses != []
    requires !Applies(clauses[0], MatchesWho(services, clauses[0].who, clauses[0].grant, query, reader), required)
    ensures RunClauses(services, clauses, query, required, reader, current) ==
            Preceded([], MatchesWho(services, clauses[0].who, clauses[0].grant, query, reader).lookups,
                     RunClauses(services, clauses[1..], query, required, reader, current))
  {
    hide MatchesWho, Applies;
  }

  lemma Applied(services: Services, clauses: seq<ByClause>, query: Query, required: Privilege, reader: Reader,
                current: Privilege, after: Privilege)
    requires clauses != []
    requires Applies(clauses[0], MatchesWho(services, clauses[0].who, clauses[0].grant, query, reader), required)
    requires after == After(clauses[0], MatchesWho(services, clauses[0].who, clauses[0].grant, query, reader), current)
    ensures RunClauses(services, clauses, query, required, reader, current) ==
            Preceded([clauses[0]], MatchesWho(services, clauses[0].who, clauses[0].grant, query, reader).lookups,
                     match clauses[0].control
                     case Stop => Outcome(Stopped, after, [], [])
                     case Break => Outcome(Broke, after, [], [])
                     case Continue => RunClauses(services, clauses[1..], query, required, reader, after))
  {
    hide MatchesWho, Applies, After;
    var lookups := MatchesWho(services, clauses[0].who, clauses[0].grant, query, reader).lookups;
    assert [clauses[0]] + [] == [clauses[0]] && lookups + [] == lookups;
  }

  /** The clause loop of Allowed. */
  method EvaluateClauses(services: Services, clauses: seq<ByClause>, query: Query, required: Privilege,
                         reader: EntryReader?, start: Privilege)
    returns (ending: Ending, privileges: Privilege, ghost applied: seq<ByClause>, ghost lookups: seq<DN>)
    modifies Footprint(reader)
    ensures Outcome(ending, privileges, applied, lookups) ==
            RunClauses(services, clauses, query, required, View(reader), start)
    ensures Recorded(reader, old(CallsOf(reader)), lookups)
  {
    ghost var view, before := View(reader), CallsOf(reader);
    ghost var whole := RunClauses(services, clauses, query, required, view, start);
    privileges, applied, lookups := start, [], [];
    LeadsStart(whole);
    RecordedNothing(reader);
    assert clauses[0..] == clauses;
    hide MatchesWho, RunClauses, Leads, Preceded;
    for i := 0 to |clauses|
      invariant Leads(whole, applied, lookups, RunClauses(services, clauses[i..], query, required, view, privileges))
      invariant Recorded(reader, before, lookups)
    {
      var clause := clauses[i];
      assert clauses[i..][0] == clause && clauses[i..][1..] == clauses[i + 1..];
      ghost var middle, done := CallsOf(reader), lookups;
      assert reader != null ==> middle == before + done;
      hide Recorded;
      var matched, dynamic, mask, more := CheckWho(services, clause.who, clause.grant, query, reader);
      ghost var found := WhoMatch(matched, dynamic, mask, more);
      RecordedThen(reader, before, done, middle, more);
      lookups := lookups + more;
      if !matched || (dynamic && !Holds(clause.grant.privileges, required)) {
        Passed(services, clauses[i..], query, required, view, privileges);
        LeadsOn(whole, applied, done, [], more,
                RunClauses(services, clauses[i + 1..], query, required, view, privileges));
        assert applied + [] == applied;
        continue;
      }
      ghost var current := privileges;
      if dynamic {
        privileges := ApplyMask(privileges, clause.grant.privileges, mask);
      } else {
        privileges := ApplyGrant(privileges, clause.grant);
      }
      Applied(services, clauses[i..], query, required, view, current, privileges);
      ghost var before_ := applied;
      applied := applied + [clause];
      match clause.control {
        case Stop =>
          LeadsOn(whole, before_, done, [clause], more, Outcome(Stopped, privileges, [], []));
          LeadsEnd(whole, applied, lookups, Outcome(Stopped, privileges, [], []));
          assert applied + [] == applied && lookups + [] == lookups;
          return Stopped, privileges, applied, lookups;
        case Continue =>
          LeadsOn(whole, before_, done, [clause], more,
                  RunClauses(services, clauses[i + 1..], query, required, view, privileges));
        case Break =>
          LeadsOn(whole, before_, done, [clause], more, Outcome(Broke, privileges, [], []));
          LeadsEnd(whole, applied, lookups, Outcome(Broke, privileges, [], []));
          assert applied + [] == applied && lookups + [] == lookups;
          return Broke, privileges, applied, lookups;
      }
    }
    NoClauses(services, query, required, view, privileges);
    LeadsEnd(whole, applied, lookups, Outcome(FellThrough, privileges, [], []));
    assert applied + [] == applied && lookups + [] == lookups;
    ending := FellThrough;
  }

  lemma NoClauses(services: Services, query: Query, required: Privilege, reader: Reader, current: Privilege)
    ensures RunClauses(services, [], query, required, reader, current) == Outcome(FellThrough, current, [], [])
  {
  }

  lemma RuleDecides(services: Services, rules: seq<Rule>, request: Request, reader: Reader, current: Privilege,
                    context: MatchContext)
    requires rules != [] && MatchTarget(services, rules[0].target, request.target, request.targetDN) == Some(context)
    ensures var here := RunClauses(services, rules[0].clauses, QueryOf(request, context), request.required, reader, current);
            RunRules(services, rules, request, reader, current) ==
            if here.ending != Broke then here
            else Preceded(here.applied, here.lookups, RunRules(services, rules[1..], request, reader, here.privileges))
  {
    hide MatchTarget, RunClauses;
  }

  /** The rule loop of Allowed. */
  method EvaluateRules(services: Services, rules: seq<Rule>, request: Request, reader: EntryReader?)
    returns (allowed: bool, ghost lookups: seq<DN>)
    requires rules != []
    modifies Footprint(reader)
    ensures var decision := DecideRules(services, rules, request, View(reader));
            allowed == decision.allowed && lookups == decision.lookups
    ensures Recorded(reader, old(CallsOf(reader)), lookups)
  {
    ghost var view, before := View(reader), CallsOf(reader);
    var privileges: Privilege := {};
    ghost var whole := RunRules(services, rules, request, view, {});
    ghost var applied: seq<ByClause> := [];
    lookups := [];
    LeadsStart(whole);
    RecordedNothing(reader);
    assert rules[0..] == rules;
    hide MatchTarget, RunClauses, Leads, Preceded;
    for i := 0 to |rules|
      invariant Leads(whole, applied, lookups, RunRules(services, rules[i..], request, view, privileges))
      invariant Recorded(reader, before, lookups)
    {
      var rule := rules[i];
      assert rules[i..][0] == rule && rules[i..][1..] == rules[i + 1..];
      var context := CheckTarget(services, rule.target, request.target, request.targetDN);
      if context.None? { continue; }
      RuleDecides(services, rules[i..], request, view, privileges, context.value);
      hide RunRules;
      ghost var middle, done := CallsOf(reader), lookups;
      assert reader != null ==> middle == before + done;
      hide Recorded;
      ghost var current := privileges;
      ghost var more, moreLookups;
      var ending;
      ending, privileges, more, moreLookups :=
        EvaluateClauses(services, rule.clauses, QueryOf(request, context.value), request.required, reader, privileges);
      RecordedThen(reader, before, done, middle, moreLookups);
      lookups := lookups + moreLookups;
      ghost var here := Outcome(ending, privileges, more, moreLookups);
      if ending == Broke {
        LeadsOn(whole, applied, done, more, moreLookups, RunRules(services, rules[i + 1..], request, view, privileges));
        applied := applied + more;
        continue;
      }
      LeadsEnd(whole, applied, done, here);
      if ending == Stopped { return Holds(privileges, request.required), lookups; }
      return false, lookups;
    }
    NoRules(services, request, view, privileges);
    LeadsEnd(whole, applied, lookups, Outcome(FellThrough, privileges, [], []));
    assert lookups + [] == lookups;
    return false, lookups;
  }

  lemma NoRules(services: Services, request: Request, reader: Reader, current: Privilege)
    ensures RunRules(services, [], request, reader, current) == Outcome(FellThrough, current, [], [])
  {
  }

  /** Allowed. */
  method Allowed(services: Services, policy: Policy, subject: Subject, target: Target, required: Privilege,
                 reader: EntryReader?)
    returns (allowed: bool, ghost lookups: seq<DN>)
    modifies Footprint(reader)
    ensures var decision := Decide(services, policy, subject, target, required, View(reader));
            allowed == decision.allowed && lookups == decision.lookups
    ensures Recorded(reader, old(CallsOf(reader)), lookups)
  {
    RecordedNothing(reader);
    var targetDN := services.parseDN(target.entry.dn, target.normalizer);
    if targetDN.None? { return false, []; }
    hide RunRules, RulesFor, Recorded;
    var rules := FindRules(services, policy, targetDN.value, target.normalizer);
    if |rules| == 0 { return Holds(DefaultPrivileges(targetDN.value), required), []; }
    hide DecideRules;
    allowed, lookups := EvaluateRules(services, rules, Request(subject, target, targetDN.value, required), reader);
  }
}
