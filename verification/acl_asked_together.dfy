/** With ACI clauses, asking for privileges together is asking for each exactly when the clauses' lists agree on them. */
module AclAskedTogether {
  import opened Text
  import opened AclTypes
  import opened AclNames
  import opened AclAci
  import opened AclMatching
  import opened AclPolicy
  import opened AclTheorems
  import Aci = AciText
  import Normal = AciNormal
  import AciExamples

  /** One ACI on the entry: everyone may read every attribute. */
  const ReadAll := AciExamples.ReadValue(Aci.Public, "")

  /** A directory without schema whose one entry carries that ACI. */
  const Directory := Services(
    (text: string, normalizer: bool) => Some(["cn=a"]),
    (dn: DN) => "cn=a", (dn: DN) => "cn=a", (dn: DN) => "cn=a",
    (pattern: string) => false,
    (pattern: string, text: string) => None,
    (attribute: string) => false,
    (objectClass: string, attribute: string) => None,
    (candidate: string, requested: string) => false,
    (attribute: string) => false,
    (attribute: string) => false,
    (attribute: string, value: string) => None,
    (schema: bool, attribute: string, rule: string, a: string, b: string) => None,
    (filter: string, entry: Entry, schema: bool) => None,
    (entry: Entry, attribute: string, schema: bool) => [Normal.Render(ReadAll)],
    (pattern: string, peer: string, ipv6: bool) => false,
    (m: WhoMatcher, dn: string, target: Target, reader: Reader, context: MatchContext) => Looked(false, []),
    (m: WhoMatcher, dn: string, t: Target, targetDN: DN, reader: Reader, context: MatchContext) => Looked(false, []),
    (objectClass: string, attribute: string, group: DN, dn: string, t: Target, reader: Reader) => Looked(false, []),
    (reference: bool, text: string, dn: string, t: Target, targetDN: DN, reader: Reader) => Looked(false, []))

  const Anyone := Subject("", "", "", "", "", "", 0, 0, 0, 0)

  const TheTarget := Target(Entry("cn=a", map[]), "cn", None, false, false, false)

  /** by aci =listed control */
  function AciClause(listed: Privilege, control: Control): ByClause {
    ByClause([WhoMatcher(WhoACI("OpenLDAPaci"), false)], Grant(GrantSet, listed, false, false), control)
  }

  /** by * =granted stop */
  function AnyClause(granted: Privilege): ByClause {
    ByClause([WhoMatcher(WhoAny, false)], Grant(GrantSet, granted, false, false), Stop)
  }

  const Everything := TargetSelector(DNMatcher(DNAny, [], None, "", false, 0), [], None, None)

  /** to * by aci =listed control by * =granted stop */
  function TheRule(listed: Privilege, control: Control, granted: Privilege): Rule {
    Rule(0, Everything, [AciClause(listed, control), AnyClause(granted)])
  }

  function ThePolicy(listed: Privilege, control: Control, granted: Privilege): Policy {
    Policy([TheRule(listed, control, granted)], [])
  }

  lemma ReadAllParses()
    ensures Aci.Parse(Normal.Render(ReadAll), Naming(Directory)) == Some(ReadAll)
  {
    hide Normal.Render, Aci.Parse, Directory;
    AciExamples.ReadValueParses(Aci.Public, "", Naming(Directory));
  }

  lemma DirectoryAnswers()
    ensures forall dn: DN :: Directory.key(dn) == "cn=a"
    ensures forall text: string, normalizer: bool :: Directory.parseDN(text, normalizer) == Some(["cn=a"])
    ensures forall entry: Entry, attribute: string, schema: bool ::
              Directory.attributeValues(entry, attribute, schema) == [Normal.Render(ReadAll)]
  {
    hide Normal.Render;
  }

  lemma EntryGrantsRead(query: Query)
    requires query.target == TheTarget && query.targetDN == ["cn=a"]
    ensures MatcherMask(Directory, "OpenLDAPaci", query, NoReader).mask == Mask({Read}, {})
  {
    DirectoryAnswers();
    ReadAllParses();
    hide Aci.Parse, Normal.Render, Naming, Directory, ValueMask;
    ReadAllMask(query);
    var raw := Normal.Render(ReadAll);
    assert RawMask(Directory, raw, AssertEntry, query, NoReader).mask == Mask({Read}, {});
    hide RawMask;
    assert [raw][..0] == [];
    var values := Directory.attributeValues(query.target.entry, "OpenLDAPaci", false);
    assert values == [raw];
    assert ValuesMask(Directory, values, AssertEntry, query, NoReader) ==
           Plus(Answer(NoMask, []), RawMask(Directory, raw, AssertEntry, query, NoReader));
  }

  lemma ReadAllApplies(target: Target)
    ensures PermissionMask(ReadAll.permissions[0], target) == Mask({Read}, {})
  {
    hide Directory, PlainAttribute, EqualFold;
    var permission := ReadAll.permissions[0];
    assert Aci.AllSelector in permission.attributes;
    assert SelectorApplies(Aci.AllSelector, PlainAttribute(target.attribute), target.value);
    hide SelectorApplies;
    assert RightsMask({Aci.ReadRight}) == {Read} by {
      assert Aci.ReadRight in {Aci.ReadRight} && Read in RightMask(Aci.ReadRight);
    }
    hide RightsMask;
  }

  lemma ReadAllMask(query: Query)
    ensures ValueMask(Directory, ReadAll, query, NoReader) == Answer(Mask({Read}, {}), [])
  {
    hide Directory, PermissionMask;
    ReadAllApplies(query.target);
    assert ReadAll.permissions[..0] == [];
    assert DirectMask(ReadAll.permissions, query.target) == Union(NoMask, Mask({Read}, {}));
    hide DirectMask, EntryContainsDN;
  }

  const TheContext := MatchContext(["cn=a"], [])

  const TheQuery := Query(Anyone, TheTarget, ["cn=a"], TheContext)

  lemma OneAciMatcher(services: Services, matcher: WhoMatcher, query: Query, reader: Reader, soFar: WhoMatch)
    requires matcher.who.WhoACI?
    ensures var answer := MatcherMask(services, matcher.who.aciAttribute, query, reader);
            MatchAll(services, [matcher], query, reader, soFar) ==
            WhoMatch(true, true, Union(soFar.mask, answer.mask), soFar.lookups + answer.lookups)
  {
    hide MatcherMask, MatchesOneWho, Union;
    assert [matcher][1..] == [];
  }

  lemma AciMatchersFound(listed: Privilege, control: Control)
    ensures var found := MatchAll(Directory, AciClause(listed, control).who, TheQuery, NoReader,
                                  WhoMatch(true, false, NoMask, []));
            found.matched && found.dynamic && found.mask == Mask({Read}, {})
  {
    hide MatcherMask, Directory, Normal.Render, MatchAll;
    EntryGrantsRead(TheQuery);
    OneAciMatcher(Directory, WhoMatcher(WhoACI("OpenLDAPaci"), false), TheQuery, NoReader,
                  WhoMatch(true, false, NoMask, []));
  }

  lemma AciClauseMatches(listed: Privilege, control: Control)
    ensures var clause := AciClause(listed, control);
            var found := MatchesWho(Directory, clause.who, clause.grant, TheQuery, NoReader);
            found.matched && found.dynamic && found.mask == Mask({Read}, {})
  {
    AciMatchersFound(listed, control);
    hide MatchAll, Directory, Normal.Render, ValueIsSubject;
  }

  lemma AnyClauseMatches(granted: Privilege)
    ensures var clause := AnyClause(granted);
            var found := MatchesWho(Directory, clause.who, clause.grant, TheQuery, NoReader);
            found.matched && !found.dynamic
  {
    hide Directory, MatcherMask, ValueIsSubject;
    var who := AnyClause(granted).who;
    var start := WhoMatch(true, false, NoMask, []);
    var looked := MatchesOneWho(Directory, who[0], TheQuery, NoReader);
    assert looked == Looked(true, []) && [] + looked.lookups == start.lookups;
    hide MatchesOneWho;
    assert who[1..] == [];
    assert MatchAll(Directory, [], TheQuery, NoReader, start) == start;
    assert MatchAll(Directory, who, TheQuery, NoReader, start) == start;
    hide MatchAll;
  }

  /** Without selectors of its own, a matching target leaves the DN capture only. */
  lemma TargetMatches()
    ensures MatchTarget(Directory, Everything, TheTarget, ["cn=a"]) == Some(TheContext)
  {
    DirectoryAnswers();
    hide Directory, Normal.Render, AttributeSelected, MatchTargetValue;
    assert TargetDNMatches(Directory, Everything.dn, ["cn=a"], false) == Some(["cn=a"]) by {
      assert ["cn=a"] + [] == ["cn=a"];
    }
    hide TargetDNMatches;
  }

  /** What the two clauses come to, depending on what is asked. */
  lemma ClausesRun(listed: Privilege, control: Control, granted: Privilege, required: Privilege)
    requires control != Continue
    ensures var end := RunClauses(Directory, TheRule(listed, control, granted).clauses, TheQuery, required, NoReader, {});
            if required <= listed then
              end.ending == (if control == Stop then Stopped else Broke) && end.privileges == {Read} * listed
            else end.ending == Stopped && end.privileges == granted
  {
    var clauses := TheRule(listed, control, granted).clauses;
    AciClauseMatches(listed, control);
    AnyClauseMatches(granted);
    hide MatchesWho, Directory;
    assert clauses[1..] == [AnyClause(granted)];
    if required <= listed {
      var after := {Read} * listed;
      assert ApplyMask({}, listed, Mask({Read}, {})) == after;
      Applied(Directory, clauses, TheQuery, required, NoReader, {}, after);
    } else {
      Passed(Directory, clauses, TheQuery, required, NoReader, {});
      Applied(Directory, [AnyClause(granted)], TheQuery, required, NoReader, {}, granted);
    }
  }

  lemma RuleEnds(listed: Privilege, control: Control, granted: Privilege, required: Privilege)
    requires control != Continue
    ensures var end := RunRules(Directory, [TheRule(listed, control, granted)],
                                Request(Anyone, TheTarget, ["cn=a"], required), NoReader, {});
            if required <= listed then (end.ending == Stopped <==> control == Stop) && end.privileges == {Read} * listed
            else end.ending == Stopped && end.privileges == granted
  {
    hide Directory, Normal.Render, RunClauses, MatchTarget, RunRules;
    ClausesRun(listed, control, granted, required);
    TargetMatches();
    OneRule(Directory, TheRule(listed, control, granted), Request(Anyone, TheTarget, ["cn=a"], required), NoReader,
            TheContext);
  }

  lemma OneRule(services: Services, rule: Rule, request: Request, reader: Reader, context: MatchContext)
    requires MatchTarget(services, rule.target, request.target, request.targetDN) == Some(context)
    ensures var here := RunClauses(services, rule.clauses, QueryOf(request, context), request.required, reader, {});
            var end := RunRules(services, [rule], request, reader, {});
            end.privileges == here.privileges && (end.ending == Stopped <==> here.ending == Stopped)
  {
    hide MatchTarget, RunClauses;
    RuleDecides(services, [rule], request, reader, {}, context);
    var here := RunClauses(services, rule.clauses, QueryOf(request, context), request.required, reader, {});
    NoRules(services, request, reader, here.privileges);
    assert [rule][1..] == [];
    hide RunRules;
  }

  lemma Decided(listed: Privilege, control: Control, granted: Privilege, required: Privilege)
    requires control != Continue
    ensures Decide(Directory, ThePolicy(listed, control, granted), Anyone, TheTarget, required, NoReader).allowed <==>
            if required <= listed then control == Stop && required <= {Read} else required <= granted
  {
    hide Directory, Normal.Render, RunRules, RulesFor, MatchTarget;
    var rule := TheRule(listed, control, granted);
    RuleEnds(listed, control, granted, required);
    DirectoryAnswers();
    assert RulesFor(Directory, ThePolicy(listed, control, granted), ["cn=a"], false) == [rule] by {
      OnlyGlobal(rule);
    }
  }

  lemma OnlyGlobal(rule: Rule)
    ensures RulesFor(Directory, Policy([rule], []), ["cn=a"], false) == [rule]
  {
    hide Directory;
    assert [] + [rule] == [rule];
  }

  /** Read and compare are each granted, but not together: the ACI clause is passed over for what it does not list. */
  lemma AskedTogetherFailsWithAci()
    ensures var policy := ThePolicy({Read}, Stop, {Compare});
            Decide(Directory, policy, Anyone, TheTarget, {Read}, NoReader).allowed &&
            Decide(Directory, policy, Anyone, TheTarget, {Compare}, NoReader).allowed &&
            !Decide(Directory, policy, Anyone, TheTarget, {Read} + {Compare}, NoReader).allowed
  {
    hide Decide;
    Decided({Read}, Stop, {Compare}, {Read});
    Decided({Read}, Stop, {Compare}, {Compare});
    Decided({Read}, Stop, {Compare}, {Read} + {Compare});
    assert Compare in {Read} + {Compare} && Compare !in {Read} && Read !in {Compare};
  }

  // ----- exactly when the parts decide -----

  const AllPrivileges: Privilege := {Disclose, Auth, Compare, Search, Read, WriteAdd, WriteDelete, Manage}

  lemma AllPrivilegesHold(p: Privilege)
    ensures p <= AllPrivileges
  {
    forall access: Access ensures access in AllPrivileges {
      match access
      case Disclose => case Auth => case Compare => case Search =>
      case Read => case WriteAdd => case WriteDelete => case Manage =>
    }
  }

  /** The decision about both is the decision about each. */
  predicate PartsDecide(services: Services, policy: Policy, subject: Subject, target: Target, p: Privilege,
                        q: Privilege, reader: Reader)
  {
    Decide(services, policy, subject, target, p + q, reader).allowed <==>
    Decide(services, policy, subject, target, p, reader).allowed &&
    Decide(services, policy, subject, target, q, reader).allowed
  }

  /** An ACI clause that lists p but not q and breaks: p is stopped short, q and both are passed on and granted. */
  lemma BreakingClauseDivides(listed: Privilege, p: Privilege, q: Privilege)
    requires p <= listed && !(q <= listed)
    ensures var policy := ThePolicy(listed, Break, AllPrivileges);
            !PartsDecide(Directory, policy, Anyone, TheTarget, p, q, NoReader) &&
            !PartsDecide(Directory, policy, Anyone, TheTarget, q, p, NoReader)
  {
    hide Decide;
    AllPrivilegesHold(q);
    AllPrivilegesHold(p + q);
    Decided(listed, Break, AllPrivileges, p);
    Decided(listed, Break, AllPrivileges, q);
    Decided(listed, Break, AllPrivileges, p + q);
    assert !(p + q <= listed);
    assert q + p == p + q;
  }

  /** Every clause that consults ACI values lists one of these sets of privileges. */
  ghost predicate AciClausesList(policy: Policy, lists: iset<Privilege>) {
    RulesList(policy.global, lists) &&
    forall i :: 0 <= i < |policy.databases| ==> RulesList(policy.databases[i].rules, lists)
  }

  ghost predicate RulesList(rules: seq<Rule>, lists: iset<Privilege>) {
    forall i, j :: 0 <= i < |rules| && 0 <= j < |rules[i].clauses| && ConsultsAci(rules[i].clauses[j]) ==>
      rules[i].clauses[j].grant.privileges in lists
  }

  lemma ListsInAgree(rules: seq<Rule>, lists: iset<Privilege>, p: Privilege, q: Privilege)
    requires RulesList(rules, lists) && forall listed :: listed in lists ==> (p <= listed <==> q <= listed)
    ensures ListsAgree(rules, p, q)
  {
    hide ConsultsAci;
  }

  lemma ThePolicyLists(listed: Privilege, control: Control, granted: Privilege, lists: iset<Privilege>)
    requires listed in lists
    ensures AciClausesList(ThePolicy(listed, control, granted), lists)
  {
    assert !ConsultsAci(AnyClause(granted));
  }

  /**
   * Whatever lists ACI clauses may carry: in every policy whose ACI clauses carry one of them, for every subject,
   * target and reader, the decision about both is the decision about each, if and only if each list holds all of p
   * exactly when it holds all of q.
   */
  lemma AskedTogetherExactly(lists: iset<Privilege>, p: Privilege, q: Privilege)
    ensures (forall services: Services, policy: Policy, subject: Subject, target: Target, reader: Reader ::
               AciClausesList(policy, lists) ==> PartsDecide(services, policy, subject, target, p, q, reader)) <==>
            forall listed :: listed in lists ==> (p <= listed <==> q <= listed)
  {
    hide Decide, PartsDecide, AciClausesList;
    if forall listed :: listed in lists ==> (p <= listed <==> q <= listed) {
      forall services: Services, policy: Policy, subject: Subject, target: Target, reader: Reader |
        AciClausesList(policy, lists)
        ensures PartsDecide(services, policy, subject, target, p, q, reader)
      {
        ListedPartsDecide(services, policy, subject, target, p, q, reader, lists);
      }
    } else {
      var listed :| listed in lists && !(p <= listed <==> q <= listed);
      var policy := ThePolicy(listed, Break, AllPrivileges);
      ThePolicyLists(listed, Break, AllPrivileges, lists);
      if p <= listed { BreakingClauseDivides(listed, p, q); } else { BreakingClauseDivides(listed, q, p); }
      assert !PartsDecide(Directory, policy, Anyone, TheTarget, p, q, NoReader);
    }
  }

  lemma ListedPartsDecide(services: Services, policy: Policy, subject: Subject, target: Target, p: Privilege,
                          q: Privilege, reader: Reader, lists: iset<Privilege>)
    requires AciClausesList(policy, lists) && forall listed :: listed in lists ==> (p <= listed <==> q <= listed)
    ensures PartsDecide(services, policy, subject, target, p, q, reader)
  {
    hide Decide, RulesList, ListsAgree;
    ListsInAgree(policy.global, lists, p, q);
    forall i | 0 <= i < |policy.databases| ensures ListsAgree(policy.databases[i].rules, p, q) {
      ListsInAgree(policy.databases[i].rules, lists, p, q);
    }
    AskedTogetherWhereListsAgree(services, policy, subject, target, p, q, reader);
  }
}
