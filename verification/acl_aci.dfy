/** Access control stored in the directory: the grant and deny masks an entry's ACI values give. */
module AclAci {
  import opened Text
  import opened AclTypes
  import opened AclNames
  import opened AclExpansion
  import Aci = AciText

  datatype Mask = Mask(grant: Privilege, deny: Privilege)

  const NoMask := Mask({}, {})

  function Union(a: Mask, b: Mask): Mask { Mask(a.grant + b.grant, a.deny + b.deny) }

  /** A mask with the reads that led to it. */
  datatype Answer = Answer(mask: Mask, lookups: seq<DN>)

  datatype Query = Query(subject: Subject, target: Target, targetDN: DN, context: MatchContext)

  // ----- one ACI value -----

  /** aciRights. */
  function RightMask(right: Aci.Right): Privilege {
    match right
    case AuthRight => {Auth}
    case DiscloseRight => {Disclose}
    case CompareRight => {Compare}
    case SearchRight => {Search}
    case ReadRight => {Read}
    case WriteRight => {WriteAdd, WriteDelete}
  }

  function RightsMask(rights: set<Aci.Right>): Privilege {
    set right, access | right in rights && access in RightMask(right) :: access
  }

  /** The attribute asked about without its options; "entry" when there is none. */
  function PlainAttribute(attribute: string): string {
    var plain := attribute[..IndexOf(attribute, ';')];
    if plain == "" then "entry" else plain
  }

  predicate SelectorApplies(s: Aci.AttributeSelector, attribute: string, value: Option<string>) {
    s.all ||
    (EqualFold(s.name, attribute) &&
     (!s.hasValue || value.None? ||
      (if s.prefix then |s.value| <= |value.value| && EqualFold(value.value[..|s.value|], s.value)
       else EqualFold(value.value, s.value))))
  }

  predicate PermissionApplies(permission: Aci.Permission, target: Target) {
    exists s :: s in permission.attributes && SelectorApplies(s, PlainAttribute(target.attribute), target.value)
  }

  /** aciPermissionApplies. */
  method FindSelector(permission: Aci.Permission, target: Target) returns (applies: bool)
    ensures applies == PermissionApplies(permission, target)
  {
    var attribute := PlainAttribute(target.attribute);
    for i := 0 to |permission.attributes|
      invariant forall k :: 0 <= k < i ==> !SelectorApplies(permission.attributes[k], attribute, target.value)
    {
      var selector := permission.attributes[i];
      assert selector in permission.attributes;
      if selector.all { return true; }
      if !EqualFold(selector.name, attribute) { continue; }
      if !selector.hasValue || target.value.None? { return true; }
      var candidate := target.value.value;
      if selector.prefix {
        if |candidate| >= |selector.value| && EqualFold(candidate[..|selector.value|], selector.value) { return true; }
        continue;
      }
      if EqualFold(candidate, selector.value) { return true; }
    }
    return false;
  }

  function PermissionMask(permission: Aci.Permission, target: Target): Mask {
    if !PermissionApplies(permission, target) then NoMask
    else if permission.grant then Mask(RightsMask(permission.rights), {})
    else Mask({}, RightsMask(permission.rights))
  }

  /** What the permissions say about the target, whoever asks. */
  function DirectMask(permissions: seq<Aci.Permission>, target: Target): Mask {
    if permissions == [] then NoMask
    else
      Union(DirectMask(permissions[..|permissions| - 1], target),
            PermissionMask(permissions[|permissions| - 1], target))
  }

  predicate Expandable(pattern: string) { exists i :: 0 <= i < |pattern| && ExpandsAt(pattern, i) }

  /** The group is the DN named, or what its text expands to. */
  function GroupNamed(services: Services, text: string, context: MatchContext): Option<DN> {
    if !Expandable(text) then services.parseDN(text, false)
    else
      match Expand(text, context)
      case None => None
      case Some(expanded) => services.parseDN(expanded, false)
  }

  /** matchesGroup, as an ACI asks it. */
  function GroupMatches(services: Services, value: Aci.Value, query: Query, reader: Reader): Looked {
    var group := GroupNamed(services, value.subject, query.context);
    if services.parseDN(value.subject, false).None? || reader.NoReader? || group.None? then Looked(false, [])
    else
      services.membership(value.subjectType.objectClass, value.subjectType.groupAttribute, group.value,
                          query.subject.dn, query.target, reader)
  }

  /** aciSubjectMatches. Membership of a group and the set language are looked up through the services. */
  function SubjectMatches(services: Services, value: Aci.Value, query: Query, reader: Reader): Looked {
    var kind := value.subjectType.kind;
    var subjectDN := services.parseDN(query.subject.dn, false);
    var assertion := services.parseDN(value.subject, false);
    if kind == Aci.Public then Looked(true, [])
    else if query.subject.dn == "" then Looked(false, [])
    else if kind == Aci.Users then Looked(true, [])
    else if subjectDN.None? then Looked(false, [])
    else
      match kind
      case Self => Looked(subjectDN.value == query.targetDN, [])
      case AccessId => Looked(assertion == subjectDN, [])
      case Subtree =>
        Looked(assertion.Some? && (subjectDN == assertion || AncestorOf(assertion.value, subjectDN.value)), [])
      case OneLevel => Looked(assertion.Some? && Parent(assertion.value) == subjectDN, [])
      case Children =>
        Looked(assertion.Some? && subjectDN != assertion && AncestorOf(assertion.value, subjectDN.value), [])
      case DnAttribute =>
        var target := query.target;
        Looked(EntryContainsDN(services, target.entry, value.subject, query.subject.dn, target.schema, false), [])
      case Group => GroupMatches(services, value, query, reader)
      case Role => GroupMatches(services, value, query, reader)
      case SetExpression =>
        services.aciSet(false, value.subject, query.subject.dn, query.target, query.targetDN, reader)
      case SetReference =>
        services.aciSet(true, value.subject, query.subject.dn, query.target, query.targetDN, reader)
      case _ => Looked(false, [])
  }

  /** aciValueMask: nothing unless some permission applies and the subject matches. */
  function ValueMask(services: Services, value: Aci.Value, query: Query, reader: Reader): Answer {
    var direct := DirectMask(value.permissions, query.target);
    if direct == NoMask then Answer(NoMask, [])
    else
      var looked := SubjectMatches(services, value, query, reader);
      Answer(if looked.matched then direct else NoMask, looked.lookups)
  }

  // ----- the values of one entry -----

  datatype Asserted = AssertEntry | AssertChildren

  predicate ScopeMatches(scope: Aci.Scope, asserted: Asserted) {
    scope == Aci.ScopeSubtree ||
    scope == match asserted case AssertEntry => Aci.ScopeEntry case AssertChildren => Aci.ScopeChildren
  }

  function Naming(services: Services): Aci.Naming {
    text => match services.parseDN(text, false) case None => None case Some(dn) => Some(services.key(dn))
  }

  function RawMask(services: Services, raw: string, asserted: Asserted, query: Query, reader: Reader): Answer {
    match Aci.Parse(raw, Naming(services))
    case None => Answer(NoMask, [])
    case Some(value) =>
      if ScopeMatches(value.scope, asserted) then ValueMask(services, value, query, reader) else Answer(NoMask, [])
  }

  function Plus(a: Answer, b: Answer): Answer { Answer(Union(a.mask, b.mask), a.lookups + b.lookups) }

  function ValuesMask(services: Services, values: seq<string>, asserted: Asserted, query: Query, reader: Reader): Answer
  {
    if values == [] then Answer(NoMask, [])
    else
      Plus(ValuesMask(services, values[..|values| - 1], asserted, query, reader),
           RawMask(services, values[|values| - 1], asserted, query, reader))
  }

  function EntryMask(services: Services, entry: Entry, attribute: string, asserted: Asserted, query: Query,
                     reader: Reader): Answer
  {
    ValuesMask(services, services.attributeValues(entry, attribute, query.target.schema), asserted, query, reader)
  }

  // ----- the entry and its ancestors -----

  /** The search of the ancestors, from a DN upward. */
  function Climb(services: Services, dn: DN, attribute: string, query: Query, reader: Reader): Answer
    requires reader.Reader?
    decreases |dn|
  {
    if dn == [] then Answer(NoMask, [])
    else
      match reader.get(dn)
      case None => Answer(NoMask, [dn])
      case Some(entry) =>
        var here := EntryMask(services, entry, attribute, AssertChildren, query, reader);
        if here.mask != NoMask then Answer(here.mask, [dn] + here.lookups)
        else
          var above := Climb(services, dn[1..], attribute, query, reader);
          Answer(above.mask, [dn] + here.lookups + above.lookups)
  }

  function MatcherMask(services: Services, attribute: string, query: Query, reader: Reader): Answer {
    if query.targetDN == [] then Answer(NoMask, [])
    else
      var own := EntryMask(services, query.target.entry, attribute, AssertEntry, query, reader);
      if own.mask != NoMask || reader.NoReader? then own
      else
        var above := Climb(services, query.targetDN[1..], attribute, query, reader);
        Answer(above.mask, own.lookups + above.lookups)
  }

  // ----- the methods -----

  /** The trace has grown by these lookups; without a reader there is no trace. */
  ghost predicate Recorded(reader: EntryReader?, before: seq<DN>, lookups: seq<DN>)
    reads reader
  {
    reader != null ==> reader.calls == before + lookups
  }

  lemma RecordedNothing(reader: EntryReader?)
    ensures Recorded(reader, CallsOf(reader), [])
  {
    assert CallsOf(reader) + [] == CallsOf(reader);
  }

  lemma RecordedThen(reader: EntryReader?, before: seq<DN>, first: seq<DN>, middle: seq<DN>, second: seq<DN>)
    requires Recorded(reader, middle, second) && (reader != null ==> middle == before + first)
    ensures Recorded(reader, before, first + second)
  {
    assert before + (first + second) == before + first + second;
  }

  /** Calls made inside the abstract services (groups, roles, sets) enter the reader's trace here. */
  ghost method Note(reader: EntryReader?, lookups: seq<DN>)
    modifies Footprint(reader)
    ensures Recorded(reader, old(CallsOf(reader)), lookups)
  {
    if reader != null { reader.calls := reader.calls + lookups; }
  }

  lemma UnionNothing(mask: Mask)
    ensures Union(mask, NoMask) == mask
  {
  }

  lemma DirectMaskStep(permissions: seq<Aci.Permission>, i: nat, target: Target)
    requires i < |permissions|
    ensures DirectMask(permissions[..i + 1], target) ==
            Union(DirectMask(permissions[..i], target), PermissionMask(permissions[i], target))
  {
    hide Union, PermissionMask;
    assert permissions[..i + 1][..i] == permissions[..i];
  }

  /** The permission loop of aciValueMask. */
  method AddPermissions(permissions: seq<Aci.Permission>, target: Target) returns (mask: Mask)
    ensures mask == DirectMask(permissions, target)
  {
    mask := NoMask;
    for i := 0 to |permissions|
      invariant mask == DirectMask(permissions[..i], target)
    {
      DirectMaskStep(permissions, i, target);
      UnionNothing(mask);
      hide RightsMask, PermissionApplies, DirectMask;
      var permission := permissions[i];
      var rights := RightsMask(permission.rights);
      var applies := FindSelector(permission, target);
      if !applies { continue; }
      if permission.grant {
        mask := mask.(grant := mask.grant + rights);
      } else {
        mask := mask.(deny := mask.deny + rights);
      }
    }
    assert permissions[..|permissions|] == permissions;
  }

  /** aciValueMask. */
  method AciValueMask(services: Services, value: Aci.Value, query: Query, reader: EntryReader?) returns (mask: Mask)
    modifies Footprint(reader)
    ensures var answer := ValueMask(services, value, query, View(reader));
            mask == answer.mask && Recorded(reader, old(CallsOf(reader)), answer.lookups)
  {
    mask := AddPermissions(value.permissions, query.target);
    RecordedNothing(reader);
    if mask == NoMask { return; }
    hide DirectMask, SubjectMatches;
    var looked := SubjectMatches(services, value, query, View(reader));
    Note(reader, looked.lookups);
    if !looked.matched { return NoMask; }
  }

  lemma ValuesMaskStep(services: Services, values: seq<string>, i: nat, asserted: Asserted, query: Query,
                       reader: Reader)
    requires i < |values|
    ensures ValuesMask(services, values[..i + 1], asserted, query, reader) ==
            Plus(ValuesMask(services, values[..i], asserted, query, reader),
                 RawMask(services, values[i], asserted, query, reader))
  {
    hide Plus, RawMask;
    assert values[..i + 1][..i] == values[..i];
  }

  lemma PlusNothing(a: Answer)
    ensures Plus(a, Answer(NoMask, [])) == a
  {
    UnionNothing(a.mask);
    hide Union;
  }

  /** evaluateACIValues. */
  method EvaluateACIValues(services: Services, values: seq<string>, asserted: Asserted, query: Query,
                           reader: EntryReader?)
    returns (mask: Mask)
    modifies Footprint(reader)
    ensures var answer := ValuesMask(services, values, asserted, query, View(reader));
            mask == answer.mask && Recorded(reader, old(CallsOf(reader)), answer.lookups)
  {
    mask := NoMask;
    ghost var view := View(reader);
    ghost var answer := Answer(NoMask, []);
    ghost var before := CallsOf(reader);
    RecordedNothing(reader);
    for i := 0 to |values|
      invariant answer == ValuesMask(services, values[..i], asserted, query, view) && mask == answer.mask
      invariant Recorded(reader, before, answer.lookups)
    {
      ValuesMaskStep(services, values, i, asserted, query, view);
      PlusNothing(answer);
      hide ValueMask, Aci.Parse, ValuesMask, Union, ScopeMatches, Naming;
      ghost var raw := RawMask(services, values[i], asserted, query, view);
      ghost var middle, done := CallsOf(reader), answer.lookups;
      answer := Plus(answer, raw);
      var value := Aci.ParseValue(values[i], Naming(services));
      if value.None? || !ScopeMatches(value.value.scope, asserted) { continue; }
      hide Plus;
      var candidate := AciValueMask(services, value.value, query, reader);
      RecordedThen(reader, before, done, middle, raw.lookups);
      mask := Union(mask, candidate);
    }
    assert values[..|values|] == values;
  }

  /** One level of the climb: the lookups so far and the level's mask when it decides. */
  lemma ClimbStep(services: Services, dn: DN, attribute: string, query: Query, reader: Reader)
    requires reader.Reader? && dn != [] && reader.get(dn).Some?
    ensures var here := EntryMask(services, reader.get(dn).value, attribute, AssertChildren, query, reader);
            var above := Climb(services, dn[1..], attribute, query, reader);
            Climb(services, dn, attribute, query, reader) ==
            if here.mask != NoMask then Answer(here.mask, [dn] + here.lookups)
            else Answer(above.mask, [dn] + here.lookups + above.lookups)
  {
    hide EntryMask;
  }

  /** The walk up the parents in evaluateACIMatcher. */
  method EvaluateAncestors(services: Services, start: DN, attribute: string, query: Query, reader: EntryReader)
    returns (mask: Mask)
    modifies reader
    ensures var answer := Climb(services, start, attribute, query, View(reader));
            mask == answer.mask && Recorded(reader, old(CallsOf(reader)), answer.lookups)
  {
    hide ValuesMask;
    var parent := Some(start);
    ghost var view, before := View(reader), reader.calls;
    ghost var whole := Climb(services, start, attribute, query, view);
    ghost var done: seq<DN> := [];
    assert done + whole.lookups == whole.lookups && before + done == before;
    while parent.Some? && |parent.value| > 0
      invariant parent.Some? && reader.calls == before + done
      invariant var rest := Climb(services, parent.value, attribute, query, view);
                whole.mask == rest.mask && whole.lookups == done + rest.lookups
      decreases if parent.Some? then |parent.value| else 0
    {
      ghost var dn := parent.value;
      ghost var rest := Climb(services, dn, attribute, query, view);
      var entry := reader.Get(parent.value);
      Associates(before, done, [dn]);
      if entry.None? {
        assert rest == Answer(NoMask, [dn]);
        return NoMask;
      }
      ClimbStep(services, dn, attribute, query, view);
      hide Climb;
      ghost var here := EntryMask(services, entry.value, attribute, AssertChildren, query, view);
      ghost var middle := reader.calls;
      mask := EvaluateACIValues(services, services.attributeValues(entry.value, attribute, query.target.schema),
                                AssertChildren, query, reader);
      assert reader.calls == middle + here.lookups && mask == here.mask;
      Associates(done, [dn], here.lookups);
      Associates(before, done + [dn], here.lookups);
      if mask != NoMask { return; }
      ghost var above := Climb(services, dn[1..], attribute, query, view);
      Associates(done, [dn] + here.lookups, above.lookups);
      done := done + ([dn] + here.lookups);
      parent := Parent(parent.value);
    }
    assert done + [] == done;
    return NoMask;
  }

  /** evaluateACIMatcher. */
  method EvaluateACIMatcher(services: Services, attribute: string, query: Query, reader: EntryReader?)
    returns (mask: Mask)
    modifies Footprint(reader)
    ensures var answer := MatcherMask(services, attribute, query, View(reader));
            mask == answer.mask && Recorded(reader, old(CallsOf(reader)), answer.lookups)
  {
    RecordedNothing(reader);
    if |query.targetDN| == 0 { return NoMask; }
    hide ValuesMask, Climb, Recorded;
    ghost var before := CallsOf(reader);
    ghost var own := EntryMask(services, query.target.entry, attribute, AssertEntry, query, View(reader));
    mask := EvaluateACIValues(services, services.attributeValues(query.target.entry, attribute, query.target.schema),
                              AssertEntry, query, reader);
    assert mask == own.mask;
    if mask != NoMask || reader == null { return; }
    ghost var middle := CallsOf(reader);
    ghost var above := Climb(services, query.targetDN[1..], attribute, query, View(reader));
    assert middle == before + own.lookups by { RecordedMeans(reader, before, own.lookups); }
    mask := EvaluateAncestors(services, query.targetDN[1..], attribute, query, reader);
    RecordedThen(reader, before, own.lookups, middle, above.lookups);
  }

  lemma RecordedMeans(reader: EntryReader, before: seq<DN>, lookups: seq<DN>)
    requires Recorded(reader, before, lookups)
    ensures CallsOf(reader) == before + lookups
  {
  }
}
