/** What the ACI evaluator decides: the nearest level that speaks, whatever the order of its values. */
module AclAciTheorems {
  import opened Text
  import opened AclTypes
  import opened AclNames
  import opened AclAci
  import Aci = AciText
  import Normal = AciNormal
  import AciTheorems

  // ----- the nearest level -----

  /** The mask of level k: the entry itself, then its ancestors below the root; None where unreadable. */
  function LevelMask(services: Services, attribute: string, query: Query, reader: Reader, k: nat): Option<Mask>
    requires k < |query.targetDN|
  {
    if k == 0 then Some(EntryMask(services, query.target.entry, attribute, AssertEntry, query, reader).mask)
    else if reader.NoReader? then None
    else
      match reader.get(query.targetDN[k..])
      case None => None
      case Some(entry) => Some(EntryMask(services, entry, attribute, AssertChildren, query, reader).mask)
  }

  /** Level k gives a non-zero mask, and every nearer level was readable and gave none. */
  ghost predicate Decides(services: Services, attribute: string, query: Query, reader: Reader, k: nat) {
    k < |query.targetDN| && LevelMask(services, attribute, query, reader, k).Some? &&
    LevelMask(services, attribute, query, reader, k) != Some(NoMask) &&
    forall j: nat :: j < k ==> LevelMask(services, attribute, query, reader, j) == Some(NoMask)
  }

  lemma {:induction false} ClimbFinds(services: Services, attribute: string, query: Query, reader: Reader, k: nat)
    requires reader.Reader? && 1 <= k <= |query.targetDN|
    requires forall j: nat :: j < k ==> LevelMask(services, attribute, query, reader, j) == Some(NoMask)
    ensures var found := Climb(services, query.targetDN[k..], attribute, query, reader).mask;
            if found == NoMask then forall n: nat :: n >= k ==> !Decides(services, attribute, query, reader, n)
            else exists n: nat :: n >= k && Decides(services, attribute, query, reader, n) &&
                                  LevelMask(services, attribute, query, reader, n) == Some(found)
    decreases |query.targetDN| - k
  {
    hide EntryMask;
    if k < |query.targetDN| {
      var dn := query.targetDN[k..];
      assert dn[1..] == query.targetDN[k + 1..];
      var level := LevelMask(services, attribute, query, reader, k);
      if level == Some(NoMask) {
        ClimbFinds(services, attribute, query, reader, k + 1);
        assert !Decides(services, attribute, query, reader, k);
      } else if level.Some? {
        assert Decides(services, attribute, query, reader, k);
      }
    }
  }

  /**
   * The matcher's mask is that of the nearest deciding level, and there is none exactly when no level decides:
   * the search stops at the first unreadable ancestor and at the root.
   */
  lemma NearestLevelDecides(services: Services, attribute: string, query: Query, reader: Reader)
    ensures var found := MatcherMask(services, attribute, query, reader).mask;
            if found == NoMask then forall k: nat :: !Decides(services, attribute, query, reader, k)
            else exists k: nat :: Decides(services, attribute, query, reader, k) &&
                                  LevelMask(services, attribute, query, reader, k) == Some(found)
  {
    hide EntryMask, Climb;
    if query.targetDN != [] {
      var own := LevelMask(services, attribute, query, reader, 0);
      if own == Some(NoMask) {
        if reader.Reader? { ClimbFinds(services, attribute, query, reader, 1); }
      } else {
        assert Decides(services, attribute, query, reader, 0);
      }
    }
  }

  // ----- order and repetition -----

  lemma FrontOrLast(values: seq<string>)
    requires values != []
    ensures forall v :: v in values <==> v in values[..|values| - 1] || v == values[|values| - 1]
  {
    assert values == values[..|values| - 1] + [values[|values| - 1]];
  }

  lemma {:induction false} ValuesMaskIsUnion(services: Services, values: seq<string>, asserted: Asserted,
                                             query: Query, reader: Reader, access: Access)
    ensures var mask := ValuesMask(services, values, asserted, query, reader).mask;
            (access in mask.grant <==>
             exists v :: v in values && access in RawMask(services, v, asserted, query, reader).mask.grant) &&
            (access in mask.deny <==>
             exists v :: v in values && access in RawMask(services, v, asserted, query, reader).mask.deny)
    decreases |values|
  {
    if values != [] {
      var front, last := values[..|values| - 1], values[|values| - 1];
      ValuesMaskIsUnion(services, front, asserted, query, reader, access);
      FrontOrLast(values);
      assert ValuesMask(services, values, asserted, query, reader) ==
             Plus(ValuesMask(services, front, asserted, query, reader), RawMask(services, last, asserted, query, reader));
      hide RawMask, ValuesMask;
    }
  }

  lemma SameBits(services: Services, a: seq<string>, b: seq<string>, asserted: Asserted, query: Query, reader: Reader,
                 access: Access)
    requires forall v :: v in a <==> v in b
    ensures access in ValuesMask(services, a, asserted, query, reader).mask.grant <==>
            access in ValuesMask(services, b, asserted, query, reader).mask.grant
    ensures access in ValuesMask(services, a, asserted, query, reader).mask.deny <==>
            access in ValuesMask(services, b, asserted, query, reader).mask.deny
  {
    hide ValuesMask, RawMask;
    ValuesMaskIsUnion(services, a, asserted, query, reader, access);
    ValuesMaskIsUnion(services, b, asserted, query, reader, access);
  }

  /** The mask of a list of values depends on which values occur, not on their order or number. */
  lemma OrderIrrelevant(services: Services, a: seq<string>, b: seq<string>, asserted: Asserted, query: Query,
                        reader: Reader)
    requires forall v :: v in a <==> v in b
    ensures ValuesMask(services, a, asserted, query, reader).mask == ValuesMask(services, b, asserted, query, reader).mask
  {
    hide ValuesMask, RawMask;
    var x := ValuesMask(services, a, asserted, query, reader).mask;
    var y := ValuesMask(services, b, asserted, query, reader).mask;
    forall access: Access ensures (access in x.grant <==> access in y.grant) && (access in x.deny <==> access in y.deny) {
      SameBits(services, a, b, asserted, query, reader, access);
    }
    assert x.grant == y.grant && x.deny == y.deny;
  }

  /** Two directories list the same values of every attribute, in any order and any number of times. */
  ghost predicate SameValues(a: Services, b: Services) {
    b == a.(attributeValues := b.attributeValues) &&
    forall entry: Entry, attribute: string, schema: bool, v: string ::
      v in a.attributeValues(entry, attribute, schema) <==> v in b.attributeValues(entry, attribute, schema)
  }

  lemma ValueMaskSame(a: Services, b: Services, value: Aci.Value, query: Query, reader: Reader)
    requires SameValues(a, b)
    ensures ValueMask(a, value, query, reader) == ValueMask(b, value, query, reader)
  {
    SubjectSame(a, b, value, query, reader);
    hide SubjectMatches, DirectMask, SameValues;
  }

  lemma RawMaskSame(a: Services, b: Services, raw: string, asserted: Asserted, query: Query, reader: Reader)
    requires SameValues(a, b)
    ensures RawMask(a, raw, asserted, query, reader) == RawMask(b, raw, asserted, query, reader)
  {
    ParseSame(a, b, raw);
    hide Aci.Parse, Naming, ValueMask;
    var parsed := Aci.Parse(raw, Naming(a));
    if parsed.Some? { ValueMaskSame(a, b, parsed.value, query, reader); }
    hide SameValues;
  }

  lemma ParseSame(a: Services, b: Services, raw: string)
    requires b == a.(attributeValues := b.attributeValues)
    ensures Aci.Parse(raw, Naming(a)) == Aci.Parse(raw, Naming(b))
  {
    hide Aci.Fields;
    match Aci.Fields(raw) {
      case None =>
      case Some(value) => assert Naming(a)(value.subject) == Naming(b)(value.subject);
    }
  }

  lemma ContainsSame(a: Services, b: Services, entry: Entry, attribute: string, rawDN: string, schema: bool)
    requires SameValues(a, b)
    ensures EntryContainsDN(a, entry, attribute, rawDN, schema, false) ==
            EntryContainsDN(b, entry, attribute, rawDN, schema, false)
  {
    assert a.parseDN == b.parseDN && a.compareValue == b.compareValue;
    if rawDN != "" && a.parseDN(rawDN, false).Some? {
      var subject := a.parseDN(rawDN, false).value;
      forall v: string
        ensures ValueNames(a, v, attribute, rawDN, subject, schema, false) ==
                ValueNames(b, v, attribute, rawDN, subject, schema, false)
      {
      }
      assert forall v :: v in a.attributeValues(entry, attribute, schema) <==>
                         v in b.attributeValues(entry, attribute, schema);
    }
  }

  lemma SubjectSame(a: Services, b: Services, value: Aci.Value, query: Query, reader: Reader)
    requires SameValues(a, b)
    ensures SubjectMatches(a, value, query, reader) == SubjectMatches(b, value, query, reader)
  {
    ContainsSame(a, b, query.target.entry, value.subject, query.subject.dn, query.target.schema);
    hide EntryContainsDN;
    assert a.parseDN == b.parseDN && a.membership == b.membership && a.aciSet == b.aciSet;
  }

  lemma EntryMaskSame(a: Services, b: Services, entry: Entry, attribute: string, asserted: Asserted, query: Query,
                      reader: Reader)
    requires SameValues(a, b)
    ensures EntryMask(a, entry, attribute, asserted, query, reader).mask ==
            EntryMask(b, entry, attribute, asserted, query, reader).mask
  {
    var here, there := a.attributeValues(entry, attribute, query.target.schema),
                       b.attributeValues(entry, attribute, query.target.schema);
    assert forall v :: v in here <==> v in there;
    ValuesSame(a, b, here, asserted, query, reader);
    OrderIrrelevant(b, here, there, asserted, query, reader);
    hide ValuesMask;
  }

  lemma {:induction false} ValuesSame(a: Services, b: Services, values: seq<string>, asserted: Asserted, query: Query,
                                      reader: Reader)
    requires SameValues(a, b)
    ensures ValuesMask(a, values, asserted, query, reader) == ValuesMask(b, values, asserted, query, reader)
    decreases |values|
  {
    if values != [] {
      ValuesSame(a, b, values[..|values| - 1], asserted, query, reader);
      RawMaskSame(a, b, values[|values| - 1], asserted, query, reader);
      hide RawMask, SameValues;
    }
  }

  lemma {:induction false} ClimbSame(a: Services, b: Services, dn: DN, attribute: string, query: Query, reader: Reader)
    requires SameValues(a, b) && reader.Reader?
    ensures Climb(a, dn, attribute, query, reader).mask == Climb(b, dn, attribute, query, reader).mask
    decreases |dn|
  {
    if dn != [] {
      ClimbSame(a, b, dn[1..], attribute, query, reader);
      if reader.get(dn).Some? {
        EntryMaskSame(a, b, reader.get(dn).value, attribute, AssertChildren, query, reader);
      }
      hide EntryMask, SameValues;
    }
  }

  /** The decision does not depend on the order or repetition of ACI values anywhere in the directory. */
  lemma DirectoryOrderIrrelevant(a: Services, b: Services, attribute: string, query: Query, reader: Reader)
    requires SameValues(a, b)
    ensures MatcherMask(a, attribute, query, reader).mask == MatcherMask(b, attribute, query, reader).mask
  {
    EntryMaskSame(a, b, query.target.entry, attribute, AssertEntry, query, reader);
    if query.targetDN != [] && reader.Reader? { ClimbSame(a, b, query.targetDN[1..], attribute, query, reader); }
    hide EntryMask, Climb, SameValues;
  }

  // ----- subjects -----

  lemma DistancesMean(who: DN, named: DN)
    ensures Below(who, named, 0) <==> who == named
    ensures (exists n: nat :: Below(who, named, n)) <==> who == named || AncestorOf(named, who)
    ensures (exists n: nat :: n > 0 && Below(who, named, n)) <==> who != named && AncestorOf(named, who)
    ensures Below(named, who, 1) <==> Parent(named) == Some(who)
  {
    forall n: nat ensures Below(who, named, n) <==> |who| == n + |named| && who[n..] == named {
      BelowMeans(who, named, n);
    }
    BelowMeans(named, who, 1);
    hide Below;
    if |who| >= |named| {
      var n: nat := |who| - |named|;
      assert Below(who, named, n) <==> who[n..] == named;
    }
  }

  /**
   * Whom a DN subject means, as a distance from the DN it names. A onelevel subject means the parent of that DN, and
   * no child of it.
   */
  lemma SubjectsAreDistances(services: Services, value: Aci.Value, query: Query, reader: Reader, who: DN, named: DN)
    requires query.subject.dn != "" && services.parseDN(query.subject.dn, false) == Some(who)
    requires services.parseDN(value.subject, false) == Some(named)
    ensures var matched := SubjectMatches(services, value, query, reader).matched;
            var kind := value.subjectType.kind;
            (kind == Aci.AccessId ==> (matched <==> Below(who, named, 0))) &&
            (kind == Aci.Subtree ==> (matched <==> exists n: nat :: Below(who, named, n))) &&
            (kind == Aci.Children ==> (matched <==> exists n: nat :: n > 0 && Below(who, named, n))) &&
            (kind == Aci.OneLevel ==> (matched <==> Below(named, who, 1))) &&
            (kind == Aci.Self ==> (matched <==> Below(who, query.targetDN, 0)))
  {
    DistancesMean(who, named);
    DistancesMean(who, query.targetDN);
    hide Below, EntryContainsDN, GroupMatches, AncestorOf, Parent;
  }

  // ----- normalizing -----

  lemma FoldedEqual(a: string, b: string)
    ensures EqualFold(ToLower(a), b) == EqualFold(a, b)
  {
    LowerTwice(a);
    hide ToLower;
  }

  lemma PermissionMaskCanonical(p: Aci.Permission, target: Target)
    ensures PermissionMask(p.(attributes := Normal.CanonicalSelectors(p.attributes)), target) == PermissionMask(p, target)
  {
    var attribute := PlainAttribute(target.attribute);
    var canonical := Normal.CanonicalSelectors(p.attributes);
    hide EqualFold, PlainAttribute, RightsMask, ToLower;
    forall i | 0 <= i < |canonical|
      ensures SelectorApplies(canonical[i], attribute, target.value) ==
              SelectorApplies(p.attributes[i], attribute, target.value)
    {
      FoldedEqual(p.attributes[i].name, attribute);
    }
    hide SelectorApplies;
    if s :| s in p.attributes && SelectorApplies(s, attribute, target.value) {
      var i :| 0 <= i < |p.attributes| && p.attributes[i] == s;
      assert canonical[i] in canonical;
    }
    if s :| s in canonical && SelectorApplies(s, attribute, target.value) {
      var i :| 0 <= i < |canonical| && canonical[i] == s;
      assert p.attributes[i] in p.attributes;
    }
  }

  lemma {:induction false} DirectMaskCanonical(permissions: seq<Aci.Permission>, target: Target)
    ensures DirectMask(Normal.CanonicalPermissions(permissions), target) == DirectMask(permissions, target)
    decreases |permissions|
  {
    if permissions != [] {
      var n := |permissions| - 1;
      var canonical := Normal.CanonicalPermissions(permissions);
      assert canonical[..n] == Normal.CanonicalPermissions(permissions[..n]);
      DirectMaskCanonical(permissions[..n], target);
      PermissionMaskCanonical(permissions[n], target);
      hide PermissionMask, Normal.CanonicalSelectors;
    }
  }

  /** The text names a DN whose key is not empty and names it too. */
  ghost predicate KeyNames(services: Services, text: string) {
    services.parseDN(text, false).Some? &&
    var key := services.key(services.parseDN(text, false).value);
    key != "" && services.parseDN(key, false) == services.parseDN(text, false)
  }

  /** Looking up an attribute under either name gives the same values, compared alike. */
  ghost predicate SameAttribute(services: Services, a: string, b: string) {
    (forall entry, schema ::
       services.attributeValues(entry, a, schema) == services.attributeValues(entry, b, schema)) &&
    (forall value, rawDN ::
       services.compareValue(true, a, "", value, rawDN) == services.compareValue(true, b, "", value, rawDN))
  }

  /** Object classes and group attributes are read case aside. */
  ghost predicate GroupsCaseAside(services: Services) {
    forall class_, attribute, group, subject, target, reader ::
      services.membership(class_, attribute, group, subject, target, reader) ==
      services.membership(ToLower(class_), ToLower(attribute), group, subject, target, reader)
  }

  /**
   * The subject of the value means the same after canonicalization. Public, users, self, set and set-ref subjects
   * always do; with a group or role, what a substitution in the text leads to must be what one in the key leads to.
   */
  ghost predicate SubjectKept(services: Services, value: Aci.Value, context: MatchContext) {
    match value.subjectType.kind
    case Public => true
    case Users => true
    case Self => true
    case SetExpression => true
    case SetReference => true
    case DnAttribute => SameAttribute(services, value.subject, ToLower(TrimSpace(value.subject)))
    case Group => GroupKept(services, value, context)
    case Role => GroupKept(services, value, context)
    case _ => KeyNames(services, value.subject)
  }

  ghost predicate GroupKept(services: Services, value: Aci.Value, context: MatchContext) {
    GroupsCaseAside(services) && KeyNames(services, value.subject) &&
    GroupNamed(services, services.key(services.parseDN(value.subject, false).value), context) ==
    GroupNamed(services, value.subject, context)
  }

  /** A group named outright, in its text and in its key, is kept in every context. */
  lemma OutrightGroupKept(services: Services, value: Aci.Value, context: MatchContext)
    requires GroupsCaseAside(services) && KeyNames(services, value.subject) && !Expandable(value.subject)
    requires !Expandable(services.key(services.parseDN(value.subject, false).value))
    ensures GroupKept(services, value, context)
  {
  }

  lemma SameAttributeContains(services: Services, a: string, b: string, entry: Entry, rawDN: string, schema: bool)
    requires SameAttribute(services, a, b)
    ensures EntryContainsDN(services, entry, a, rawDN, schema, false) ==
            EntryContainsDN(services, entry, b, rawDN, schema, false)
  {
    if rawDN != "" && services.parseDN(rawDN, false).Some? {
      var subject := services.parseDN(rawDN, false).value;
      forall v: string
        ensures ValueNames(services, v, a, rawDN, subject, schema, false) ==
                ValueNames(services, v, b, rawDN, subject, schema, false)
      {
      }
    }
  }

  lemma CanonicalGroupMatches(services: Services, value: Aci.Value, query: Query, reader: Reader)
    requires GroupKept(services, value, query.context) && Aci.IsGroup(value.subjectType.kind)
    ensures GroupMatches(services, Normal.Canonical(value, Naming(services)), query, reader) ==
            GroupMatches(services, value, query, reader)
  {
    hide Normal.CanonicalPermissions, ToLower, TrimSpace, GroupNamed;
  }

  lemma CanonicalSubjectMatches(services: Services, value: Aci.Value, query: Query, reader: Reader)
    requires SubjectKept(services, value, query.context)
    ensures SubjectMatches(services, Normal.Canonical(value, Naming(services)), query, reader) ==
            SubjectMatches(services, value, query, reader)
  {
    var kind := value.subjectType.kind;
    if kind == Aci.DnAttribute {
      SameAttributeContains(services, value.subject, ToLower(TrimSpace(value.subject)), query.target.entry,
                            query.subject.dn, query.target.schema);
    } else if Aci.IsGroup(kind) {
      CanonicalGroupMatches(services, value, query, reader);
    }
    hide Normal.CanonicalPermissions, ToLower, TrimSpace, EntryContainsDN, GroupMatches, GroupKept, SameAttribute;
  }

  lemma KeptNames(services: Services, value: Aci.Value, context: MatchContext)
    requires SubjectKept(services, value, context) && Aci.NamesEntry(value.subjectType.kind)
    ensures KeyNames(services, value.subject)
  {
  }

  lemma NormalizedParses(services: Services, raw: string, value: Aci.Value, context: MatchContext)
    requires Aci.Parse(raw, Naming(services)) == Some(value) && SubjectKept(services, value, context)
    ensures Normal.NormalText(raw, Naming(services)).Some?
    ensures Aci.Parse(Normal.NormalText(raw, Naming(services)).value, Naming(services)) ==
            Some(Normal.Canonical(value, Naming(services)))
  {
    AciTheorems.NormalizedReadsBack(raw, Naming(services));
    if Aci.NamesEntry(value.subjectType.kind) { KeptNames(services, value, context); }
    hide Aci.Parse, Normal.NormalText, Normal.CanonicalPermissions, ToLower, TrimSpace, SubjectKept;
  }

  lemma CanonicalValueMask(services: Services, value: Aci.Value, query: Query, reader: Reader)
    requires SubjectKept(services, value, query.context)
    ensures ValueMask(services, Normal.Canonical(value, Naming(services)), query, reader) ==
            ValueMask(services, value, query, reader)
  {
    DirectMaskCanonical(value.permissions, query.target);
    CanonicalSubjectMatches(services, value, query, reader);
    hide DirectMask, SubjectMatches, Normal.CanonicalPermissions, SubjectKept, Normal.CanonicalSubject, ToLower;
  }

  /**
   * Storing the normalized text of an ACI instead of the text itself changes no decision when its subject means the
   * same in canonical form.
   */
  lemma NormalizeKeepsMask(services: Services, raw: string, asserted: Asserted, query: Query, reader: Reader)
    requires Aci.Parse(raw, Naming(services)).Some? &&
             SubjectKept(services, Aci.Parse(raw, Naming(services)).value, query.context)
    ensures Normal.NormalText(raw, Naming(services)).Some?
    ensures RawMask(services, Normal.NormalText(raw, Naming(services)).value, asserted, query, reader) ==
            RawMask(services, raw, asserted, query, reader)
  {
    var value := Aci.Parse(raw, Naming(services)).value;
    NormalizedParses(services, raw, value, query.context);
    CanonicalValueMask(services, value, query, reader);
    hide Aci.Parse, Normal.NormalText, ValueMask, SubjectKept, Normal.CanonicalPermissions, Normal.CanonicalSubject,
         Naming, ToLower;
  }
}
