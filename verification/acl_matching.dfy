/** Whether a rule is about a target, and whether a clause is about a subject. */
module AclMatching {
  import opened Text
  import opened AclTypes
  import opened AclNames
  import opened AclExpansion
  import opened AclAci

  // ----- targets -----

  /** The text of a DN that patterns are matched against. */
  function MatchedText(services: Services, dn: DN, normalizer: bool): string {
    if normalizer then services.normalized(dn) else services.key(dn)
  }

  /** targetDNMatches: the captures a target's DN leaves, if it matches. */
  function TargetDNMatches(services: Services, matcher: DNMatcher, candidate: DN, normalizer: bool): Option<seq<string>>
  {
    if matcher.style == DNRegex then
      match matcher.pattern
      case None => None
      case Some(pattern) => services.find(pattern, MatchedText(services, candidate, normalizer))
    else
      match NormalizeDN(services, matcher.dn, normalizer)
      case None => None
      case Some(dn) =>
        if !MatchesDN(services, matcher.(dn := dn), candidate) then None
        else
          Some([MatchedText(services, candidate, normalizer)] +
               if matcher.style in {DNOne, DNSubtree, DNChildren} then [MatchedText(services, dn, normalizer)] else [])
  }

  predicate HasPrefix(s: string, c: char) { s != "" && s[0] == c }

  /** One attribute selector of a rule's target. */
  predicate AttributeSelected(services: Services, selector: string, target: Target) {
    var attribute := target.attribute;
    if selector == "*" then !target.schema || !services.isOperational(attribute)
    else if selector == "+" then target.schema && services.isOperational(attribute)
    else if HasPrefix(selector, '-') then EqualFold(selector[1..], attribute)
    else if HasPrefix(selector, '@') || HasPrefix(selector, '+') then
      target.schema && services.classAllows(selector[1..], attribute) == Some(true)
    else if HasPrefix(selector, '!') then
      target.schema && services.classAllows(selector[1..], attribute) == Some(false)
    else if target.schema then
      services.subtype(attribute, selector) ||
      (!services.hasAttributeType(selector) && services.classAllows(selector, attribute) == Some(true))
    else EqualFold(selector, attribute)
  }

  /** matchesTargetAttribute. */
  method MatchesTargetAttribute(services: Services, attributes: seq<string>, target: Target) returns (matched: bool)
    ensures matched == exists s :: s in attributes && AttributeSelected(services, s, target)
  {
    for i := 0 to |attributes|
      invariant forall k :: 0 <= k < i ==> !AttributeSelected(services, attributes[k], target)
    {
      if AttributeSelected(services, attributes[i], target) { return true; }
    }
    return false;
  }

  /** matchTargetValue: the captures the target's value leaves, if it matches. */
  function MatchTargetValue(services: Services, selector: ValueSelector, target: Target): Option<seq<string>> {
    var candidate := if target.value.None? || !target.schema then target.value
                     else services.normalizeValue(target.attribute, target.value.value);
    if candidate.None? then None
    else if selector.style == DNRegex then
      if selector.pattern.None? then None else services.find(selector.pattern.value, candidate.value)
    else if (if target.schema then services.isDNValued(target.attribute) else target.dnValued) then
      match (services.parseDN(candidate.value, target.normalizer), services.parseDN(selector.assertion, target.normalizer))
      case (Some(value), Some(assertion)) =>
        if MatchesDN(services, DNMatcher(selector.style, assertion, None, "", false, 0), value) then Some([]) else None
      case _ => None
    else if selector.style != DNExact then None
    else if services.compareValue(target.schema, target.attribute, selector.matchingRule, candidate.value,
                                  selector.assertion) == Some(0) then Some([])
    else None
  }

  /** matchTarget: the captures for the clauses of a rule, if the rule is about the target. */
  function MatchTarget(services: Services, selector: TargetSelector, target: Target, targetDN: DN): Option<MatchContext>
  {
    match TargetDNMatches(services, selector.dn, targetDN, target.normalizer)
    case None => None
    case Some(dnMatches) =>
      if selector.attributes != [] && !(exists s :: s in selector.attributes && AttributeSelected(services, s, target))
      then None
      else
        var valueMatches := if selector.value.None? then Some([])
                            else MatchTargetValue(services, selector.value.value, target);
        if valueMatches.None? then None
        else if selector.filter.Some? &&
                services.matchesFilter(selector.filter.value, target.entry, target.schema) != Some(true) then None
        else Some(MatchContext(dnMatches, valueMatches.value))
  }

  /** matchTarget, through the attribute loop. */
  method CheckTarget(services: Services, selector: TargetSelector, target: Target, targetDN: DN)
    returns (context: Option<MatchContext>)
    ensures context == MatchTarget(services, selector, target, targetDN)
  {
    hide AttributeSelected, TargetDNMatches, MatchTargetValue;
    var dnMatches := TargetDNMatches(services, selector.dn, targetDN, target.normalizer);
    if dnMatches.None? { return None; }
    if |selector.attributes| > 0 {
      var selected := MatchesTargetAttribute(services, selector.attributes, target);
      if !selected { return None; }
    }
    var valueMatches: seq<string> := [];
    if selector.value.Some? {
      var matched := MatchTargetValue(services, selector.value.value, target);
      if matched.None? { return None; }
      valueMatches := matched.value;
    }
    if selector.filter.Some? && services.matchesFilter(selector.filter.value, target.entry, target.schema) != Some(true) {
      return None;
    }
    return Some(MatchContext(dnMatches.value, valueMatches));
  }

  // ----- subjects -----

  function Folded(pattern: string): string { "(?i)" + pattern }

  /** matchesExpandedACLDN, with or without a normalizer. */
  predicate MatchesExpandedDN(services: Services, matcher: DNMatcher, candidate: DN, context: MatchContext,
                              normalizer: bool)
  {
    var text := MatchedText(services, candidate, normalizer);
    if matcher.style == DNRegex then
      if matcher.raw == "" && matcher.pattern.Some? then services.find(matcher.pattern.value, text).Some?
      else
        match Expand(matcher.raw, context)
        case None => false
        case Some(expanded) => services.compiles(Folded(expanded)) && services.find(Folded(expanded), text).Some?
    else if matcher.expand then
      match Expand(matcher.raw, context)
      case None => false
      case Some(expanded) =>
        match services.parseDN(expanded, normalizer)
        case None => false
        case Some(dn) => MatchesDN(services, matcher.(dn := dn), candidate)
    else
      match NormalizeDN(services, matcher.dn, normalizer)
      case None => false
      case Some(dn) => MatchesDN(services, matcher.(dn := dn), candidate)
  }

  function WithoutDot(s: string): string { if s != "" && s[|s| - 1] == '.' then s[..|s| - 1] else s }

  predicate DomainWithin(candidate: string, domain: string) {
    var c, d := WithoutDot(ToLower(candidate)), WithoutDot(ToLower(domain));
    c == d || (|c| > |d| && c[|c| - |d| - 1] == '.' && c[|c| - |d|..] == d)
  }

  /** matchesStringMatcher. */
  predicate MatchesString(services: Services, matcher: StringMatcher, candidate: string, context: MatchContext) {
    matcher.value == "*" ||
    (candidate != "" &&
     var value := if matcher.expand then Expand(matcher.value, context) else Some(matcher.value);
     value.Some? &&
     match matcher.style
     case StringExact => EqualFold(value.value, candidate)
     case StringRegex =>
       if matcher.pattern.Some? then services.find(matcher.pattern.value, candidate).Some?
       else services.compiles(Folded(value.value)) && services.find(Folded(value.value), candidate).Some?
     case StringSubtree => DomainWithin(candidate, value.value)
     case StringIP => services.peerAddress(value.value, candidate, false)
     case StringIPv6 => services.peerAddress(value.value, candidate, true)
     case StringPath => candidate == "PATH=" + value.value)
  }

  function RealSubject(subject: Subject): string { if subject.realDN != "" then subject.realDN else subject.dn }

  /** matchesOneWho, for every matcher but the ACI one. */
  function MatchesOneWho(services: Services, matcher: WhoMatcher, query: Query, reader: Reader): Looked {
    var target := query.target;
    var subjectDN := if matcher.authenticated then RealSubject(query.subject) else query.subject.dn;
    match matcher.who
    case WhoAny => Looked(true, [])
    case WhoAnonymous => Looked(subjectDN == "", [])
    case WhoUsers => Looked(subjectDN != "", [])
    case WhoSelf(level) => Looked(MatchesSelfLevel(services, subjectDN, query.targetDN, level, target.normalizer), [])
    case WhoDN(dn) =>
      var parsed := services.parseDN(subjectDN, target.normalizer);
      Looked(parsed.Some? && MatchesExpandedDN(services, dn, parsed.value, query.context, target.normalizer), [])
    case WhoDNAttribute(attribute) =>
      Looked(EntryContainsDN(services, target.entry, attribute, subjectDN, target.schema, target.normalizer), [])
    case WhoGroup(_) => services.group(matcher, subjectDN, target, reader, query.context)
    case WhoPeerName(m) => Looked(MatchesString(services, m, query.subject.peerName, query.context), [])
    case WhoSockName(m) => Looked(MatchesString(services, m, query.subject.sockName, query.context), [])
    case WhoDomain(m) => Looked(MatchesString(services, m, query.subject.domain, query.context), [])
    case WhoSockURL(m) => Looked(MatchesString(services, m, query.subject.sockURL, query.context), [])
    case WhoSet(_) => services.set_(matcher, subjectDN, target, query.targetDN, reader, query.context)
    case WhoACI(_) => Looked(false, [])
    case WhoSSF(strength, minimum) =>
      var s := match strength
        case Overall => query.subject.ssf
        case Transport => query.subject.transportSSF
        case Tls => query.subject.tlsSSF
        case Sasl => query.subject.saslSSF;
      Looked(s >= minimum, [])
  }

  // ----- clauses -----

  datatype WhoMatch = WhoMatch(matched: bool, dynamic: bool, mask: Mask, lookups: seq<DN>)

  function NoMatch(lookups: seq<DN>): WhoMatch { WhoMatch(false, false, NoMask, lookups) }

  /** The matchers of a clause in turn: the first that fails ends it, ACI matchers add to the mask. */
  function MatchAll(services: Services, matchers: seq<WhoMatcher>, query: Query, reader: Reader,
                    soFar: WhoMatch): WhoMatch
  {
    if matchers == [] then soFar
    else if matchers[0].who.WhoACI? then
      var answer := MatcherMask(services, matchers[0].who.aciAttribute, query, reader);
      MatchAll(services, matchers[1..], query, reader,
               WhoMatch(true, true, Union(soFar.mask, answer.mask), soFar.lookups + answer.lookups))
    else
      var looked := MatchesOneWho(services, matchers[0], query, reader);
      if !looked.matched then NoMatch(soFar.lookups + looked.lookups)
      else
        MatchAll(services, matchers[1..], query, reader, soFar.(lookups := soFar.lookups + looked.lookups))
  }

  predicate TargetIsDNValued(services: Services, target: Target) {
    if target.schema then services.isDNValued(target.attribute) else target.dnValued
  }

  predicate SelfValueHolds(services: Services, grant: Grant, query: Query) {
    (grant.selfValue ==>
       TargetIsDNValued(services, query.target) &&
       ValueIsSubject(services, query.target.value, query.subject.dn, query.target.normalizer)) &&
    (grant.realSelfValue ==>
       TargetIsDNValued(services, query.target) &&
       ValueIsSubject(services, query.target.value, RealSubject(query.subject), query.target.normalizer))
  }

  /** matchesWho. */
  function MatchesWho(services: Services, matchers: seq<WhoMatcher>, grant: Grant, query: Query,
                      reader: Reader): WhoMatch
  {
    var all := MatchAll(services, matchers, query, reader, WhoMatch(true, false, NoMask, []));
    if !all.matched || !SelfValueHolds(services, grant, query) || (all.dynamic && all.mask == NoMask)
    then NoMatch(all.lookups)
    else all
  }

  /** The matcher loop of matchesWho. */
  method CheckMatchers(services: Services, matchers: seq<WhoMatcher>, query: Query, reader: EntryReader?)
    returns (matched: bool, dynamic: bool, mask: Mask, ghost lookups: seq<DN>)
    modifies Footprint(reader)
    ensures WhoMatch(matched, dynamic, mask, lookups) ==
            MatchAll(services, matchers, query, View(reader), WhoMatch(true, false, NoMask, []))
    ensures Recorded(reader, old(CallsOf(reader)), lookups)
  {
    ghost var view, before := View(reader), CallsOf(reader);
    ghost var whole := MatchAll(services, matchers, query, view, WhoMatch(true, false, NoMask, []));
    matched, dynamic, mask, lookups := true, false, NoMask, [];
    RecordedNothing(reader);
    assert matchers[0..] == matchers;
    for i := 0 to |matchers|
      invariant MatchAll(services, matchers[i..], query, view, WhoMatch(matched, dynamic, mask, lookups)) == whole
      invariant Recorded(reader, before, lookups)
      invariant matched
    {
      hide MatchesOneWho, MatcherMask, Union;
      var matcher := matchers[i];
      assert matchers[i..][0] == matcher && matchers[i..][1..] == matchers[i + 1..];
      ghost var middle, done := CallsOf(reader), lookups;
      assert reader != null ==> middle == before + done;
      hide Recorded;
      if matcher.who.WhoACI? {
        ghost var answer := MatcherMask(services, matcher.who.aciAttribute, query, view);
        dynamic := true;
        var more := EvaluateACIMatcher(services, matcher.who.aciAttribute, query, reader);
        RecordedThen(reader, before, done, middle, answer.lookups);
        mask := Union(mask, more);
        lookups := done + answer.lookups;
        continue;
      }
      var looked := MatchesOneWho(services, matcher, query, View(reader));
      Note(reader, looked.lookups);
      RecordedThen(reader, before, done, middle, looked.lookups);
      lookups := done + looked.lookups;
      if !looked.matched { return false, false, NoMask, lookups; }
    }
  }

  /** matchesWho, through its loop. */
  method CheckWho(services: Services, matchers: seq<WhoMatcher>, grant: Grant, query: Query, reader: EntryReader?)
    returns (matched: bool, dynamic: bool, mask: Mask, ghost lookups: seq<DN>)
    modifies Footprint(reader)
    ensures WhoMatch(matched, dynamic, mask, lookups) == MatchesWho(services, matchers, grant, query, View(reader))
    ensures Recorded(reader, old(CallsOf(reader)), lookups)
  {
    matched, dynamic, mask, lookups := CheckMatchers(services, matchers, query, reader);
    hide MatchAll, Recorded, ValueIsSubject;
    if !matched || !SelfValueHolds(services, grant, query) || (dynamic && mask == NoMask) {
      matched, dynamic, mask := false, false, NoMask;
    }
  }
}
