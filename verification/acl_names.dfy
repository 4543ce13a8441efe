/** Matching of distinguished names, shared by the policy and the ACI evaluator. */
module AclNames {
  import opened Text
  import opened AclTypes

  /** dnAncestor: the level-th ancestor, never the root. */
  method DnAncestor(start: DN, levels: int) returns (ancestor: Option<DN>)
    ensures ancestor == Ancestor(start, levels)
  {
    var dn := start;
    var level := levels;
    while level > 0
      invariant level <= levels || level == levels
      invariant Ancestor(dn, level) == Ancestor(start, levels)
    {
      var parent := Parent(dn);
      if parent.None? || parent.value == [] { return None; }
      dn := parent.value;
      level := level - 1;
    }
    return if dn == [] then None else Some(dn);
  }

  /** The DN that many levels up, if it is below the root. */
  function Ancestor(dn: DN, level: int): (ancestor: Option<DN>)
    ensures level >= 0 ==> ancestor == if level < |dn| then Some(dn[level..]) else None
    ensures level < 0 ==> ancestor == if dn == [] then None else Some(dn)
    decreases level
  {
    if level <= 0 then (if dn == [] then None else Some(dn))
    else if |dn| <= 1 then None
    else Ancestor(dn[1..], level - 1)
  }

  /** normalizeACLDN: the DN read again under the target's normalizer. */
  function NormalizeDN(services: Services, dn: DN, normalizer: bool): Option<DN> {
    if normalizer then services.parseDN(services.display(dn), true) else Some(dn)
  }

  /** matchesDN. */
  predicate MatchesDN(services: Services, matcher: DNMatcher, candidate: DN) {
    match matcher.style
    case DNAny => true
    case DNExact => matcher.dn == candidate
    case DNOne => AncestorOf(matcher.dn, candidate) && |candidate| == |matcher.dn| + 1
    case DNSubtree => matcher.dn == candidate || AncestorOf(matcher.dn, candidate)
    case DNChildren => AncestorOf(matcher.dn, candidate)
    case DNLevel => Ancestor(candidate, matcher.level) == Some(matcher.dn)
    case DNRegex => matcher.pattern.Some? && services.find(matcher.pattern.value, services.key(candidate)).Some?
  }

  /** One value of a DN attribute names the subject, as a DN or under the attribute's matching rule. */
  predicate ValueNames(services: Services, value: string, attribute: string, rawDN: string, subject: DN,
                       schema: bool, normalizer: bool)
  {
    match services.parseDN(value, normalizer)
    case Some(candidate) => candidate == subject
    case None => schema && services.compareValue(true, attribute, "", value, rawDN) == Some(0)
  }

  /** entryContainsDNWithNormalizer. */
  predicate EntryContainsDN(services: Services, entry: Entry, attribute: string, rawDN: string, schema: bool,
                            normalizer: bool)
  {
    rawDN != "" && services.parseDN(rawDN, normalizer).Some? &&
    exists value :: value in services.attributeValues(entry, attribute, schema) &&
      ValueNames(services, value, attribute, rawDN, services.parseDN(rawDN, normalizer).value, schema, normalizer)
  }

  /** The value loop of entryContainsDNWithNormalizer. */
  method FindDN(services: Services, entry: Entry, attribute: string, rawDN: string, schema: bool, normalizer: bool)
    returns (found: bool)
    ensures found == EntryContainsDN(services, entry, attribute, rawDN, schema, normalizer)
  {
    if rawDN == "" { return false; }
    var subject := services.parseDN(rawDN, normalizer);
    if subject.None? { return false; }
    var values := services.attributeValues(entry, attribute, schema);
    for i := 0 to |values|
      invariant forall k :: 0 <= k < i ==>
                  !ValueNames(services, values[k], attribute, rawDN, subject.value, schema, normalizer)
    {
      if ValueNames(services, values[i], attribute, rawDN, subject.value, schema, normalizer) { return true; }
    }
    return false;
  }

  /** valueIsSubjectDN. */
  predicate ValueIsSubject(services: Services, value: Option<string>, rawSubject: string, normalizer: bool) {
    value.Some? && value.value != "" && rawSubject != "" &&
    services.parseDN(value.value, normalizer).Some? && services.parseDN(rawSubject, normalizer).Some? &&
    services.parseDN(value.value, normalizer) == services.parseDN(rawSubject, normalizer)
  }

  /** matchesSelfLevel: one of the two is the other's ancestor at the given distance. */
  predicate MatchesSelfLevel(services: Services, rawSubject: string, target: DN, level: int, normalizer: bool) {
    rawSubject != "" && services.parseDN(rawSubject, normalizer).Some? &&
    var subject := services.parseDN(rawSubject, normalizer).value;
    if level < 0 then Ancestor(target, -level) == Some(subject) else Ancestor(subject, level) == Some(target)
  }

  // ----- styles as distances -----

  /** The candidate lies that many levels below the DN. */
  ghost predicate Below(candidate: DN, dn: DN, levels: nat) {
    exists front: DN :: |front| == levels && candidate == front + dn
  }

  lemma BelowMeans(candidate: DN, dn: DN, levels: nat)
    ensures Below(candidate, dn, levels) <==> |candidate| == levels + |dn| && candidate[levels..] == dn
  {
    if |candidate| == levels + |dn| && candidate[levels..] == dn {
      assert candidate == candidate[..levels] + dn;
    }
    if Below(candidate, dn, levels) {
      var front: DN :| |front| == levels && candidate == front + dn;
    }
  }

  /** Each style asks for a distance: none, one, any, at least one, or the given one, the root never counting there. */
  lemma StylesAreDistances(services: Services, matcher: DNMatcher, candidate: DN)
    ensures matcher.style == DNExact ==> (MatchesDN(services, matcher, candidate) <==> Below(candidate, matcher.dn, 0))
    ensures matcher.style == DNOne ==> (MatchesDN(services, matcher, candidate) <==> Below(candidate, matcher.dn, 1))
    ensures matcher.style == DNSubtree ==>
              (MatchesDN(services, matcher, candidate) <==> exists n: nat :: Below(candidate, matcher.dn, n))
    ensures matcher.style == DNChildren ==>
              (MatchesDN(services, matcher, candidate) <==> exists n: nat :: n > 0 && Below(candidate, matcher.dn, n))
    ensures matcher.style == DNLevel ==>
              (MatchesDN(services, matcher, candidate) <==>
               Below(candidate, matcher.dn, matcher.level) && matcher.dn != [])
  {
    forall n: nat
      ensures Below(candidate, matcher.dn, n) <==> |candidate| == n + |matcher.dn| && candidate[n..] == matcher.dn
    {
      BelowMeans(candidate, matcher.dn, n);
    }
    hide Below;
    if |candidate| >= |matcher.dn| {
      var n: nat := |candidate| - |matcher.dn|;
      assert Below(candidate, matcher.dn, n) <==> candidate[n..] == matcher.dn;
    }
  }
}
