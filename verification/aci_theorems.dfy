/** Normalizing keeps what an ACI says: the round trip, idempotence, and what comparison decides. */
module AciTheorems {
  import opened Text
  import opened AciText
  import opened AciNormal
  import opened AciReadBack

  // ----- the permission field -----

  /** Permissions the parser can produce: numbered by action, every selector plain. */
  ghost predicate PlainPermissions(permissions: seq<Permission>) {
    exists actions: seq<Action> :: actions != [] && PlainActions(actions) && permissions == Flatten(actions, 0)
  }

  lemma FieldParsed(raw: string)
    requires Without(raw, '#') && PermissionsOf(raw).Some?
    ensures PlainPermissions(PermissionsOf(raw).value)
  {
    var texts := Split(raw, '$');
    SplitKeepsOut(raw, '$', '#');
    hide Split, Without, ActionsIn, PlainActions, Flatten;
    ActionsParsedIn(texts);
  }

  lemma FieldReadBack(permissions: seq<Permission>)
    requires PlainPermissions(permissions)
    ensures PermissionsOf(PermissionsText(permissions, None)) == Some(permissions)
    ensures Without(PermissionsText(permissions, None), '#')
  {
    var actions: seq<Action> :| actions != [] && PlainActions(actions) && permissions == Flatten(actions, 0);
    assert Separator(None) == "";
    hide PlainActions, Flatten, PermissionsText, PermissionsOf, FieldText, Without, Separator;
    ActionsPrinted(actions, 0, None);
    NothingAdds(FieldText(actions));
    FieldRead(actions);
    FieldPlain(actions);
  }

  function CanonicalActions(actions: seq<Action>): (r: seq<Action>)
    ensures |r| == |actions|
    ensures forall i :: 0 <= i < |r| ==> r[i] == Action(actions[i].grant, CanonicalClauses(actions[i].clauses))
  {
    seq(|actions|, i requires 0 <= i < |actions| => Action(actions[i].grant, CanonicalClauses(actions[i].clauses)))
  }

  lemma {:induction false} NumberedAt(grant: bool, clauses: seq<Clause>, k: nat)
    ensures forall i :: 0 <= i < |clauses| ==>
              Numbered(grant, clauses, k)[i] == Permission(grant, clauses[i].rights, clauses[i].attributes, k)
  {
    if clauses != [] { NumberedAt(grant, clauses[1..], k); }
  }

  lemma NumberedCanonical(grant: bool, clauses: seq<Clause>, k: nat)
    ensures CanonicalPermissions(Numbered(grant, clauses, k)) == Numbered(grant, CanonicalClauses(clauses), k)
  {
    NumberedAt(grant, clauses, k);
    NumberedAt(grant, CanonicalClauses(clauses), k);
    hide Numbered, CanonicalSelectors;
  }

  lemma CanonicalConcat(a: seq<Permission>, b: seq<Permission>)
    ensures CanonicalPermissions(a + b) == CanonicalPermissions(a) + CanonicalPermissions(b)
  {
    hide CanonicalSelectors;
  }

  lemma {:induction false} FlattenCanonical(actions: seq<Action>, k: nat)
    ensures CanonicalPermissions(Flatten(actions, k)) == Flatten(CanonicalActions(actions), k)
    decreases |actions|
  {
    if actions != [] {
      FlattenCanonical(actions[1..], k + 1);
      FlattenStep(actions, k);
      FlattenStep(CanonicalActions(actions), k);
      hide Flatten, Numbered, CanonicalPermissions, CanonicalClauses;
      assert CanonicalActions(actions)[1..] == CanonicalActions(actions[1..]);
      NumberedCanonical(actions[0].grant, actions[0].clauses, k);
      CanonicalConcat(Numbered(actions[0].grant, actions[0].clauses, k), Flatten(actions[1..], k + 1));
    }
  }

  lemma PermissionsCanonical(permissions: seq<Permission>)
    requires PlainPermissions(permissions)
    ensures PlainPermissions(CanonicalPermissions(permissions))
  {
    var actions: seq<Action> :| actions != [] && PlainActions(actions) && permissions == Flatten(actions, 0);
    var canonical: seq<Action> := CanonicalActions(actions);
    forall i: nat | i < |canonical| ensures PlainAction(canonical[i]) { ClausesCanonical(actions[i].clauses); }
    hide PlainAction, Flatten, CanonicalPermissions;
    FlattenCanonical(actions, 0);
    assert canonical != [] && PlainActions(canonical);
  }

  // ----- the subject type -----

  predicate PlainOption(s: string) { s != "" && Trimmed(s) && Without(s, '/') && Without(s, '#') }

  predicate PlainSubjectType(t: SubjectType) {
    if IsGroup(t.kind) then PlainOption(t.objectClass) && PlainOption(t.groupAttribute)
    else t.objectClass == "" && t.groupAttribute == ""
  }

  predicate LowerWord(s: string) { s != "" && forall i :: 0 <= i < |s| ==> 'a' <= s[i] <= 'z' || s[i] == '-' }

  lemma KindIsWord(kind: SubjectKind)
    ensures LowerWord(KindText(kind))
  {
  }

  lemma LowerWordKept(s: string)
    requires LowerWord(s)
    ensures ToLower(s) == s && TrimSpace(s) == s && Without(s, '/') && Without(s, '#')
  {
    TrimSpaceKeeps(s);
  }

  lemma KindOfText(kind: SubjectKind)
    ensures KindOf(KindText(kind)) == Some(kind)
  {
  }

  lemma KindRead(kind: SubjectKind)
    ensures KindOf(ToLower(KindText(kind))) == Some(kind)
    ensures TrimSpace(KindText(kind)) == KindText(kind)
    ensures Without(KindText(kind), '/') && Without(KindText(kind), '#')
  {
    hide KindText, KindOf, ToLower, TrimSpace, Without, LowerWord;
    KindIsWord(kind);
    LowerWordKept(KindText(kind));
    KindOfText(kind);
  }

  lemma SubjectTypeOfGroup(raw: string, kind: string, class_: string, attribute: string, k: SubjectKind)
    requires Split(raw, '/') == [kind, class_, attribute] && KindOf(ToLower(TrimSpace(kind))) == Some(k) && IsGroup(k)
    requires TrimSpace(class_) == class_ != "" && TrimSpace(attribute) == attribute != ""
    ensures SubjectTypeOf(raw) == Some(SubjectType(k, class_, attribute))
  {
    hide Split, KindOf, ToLower, TrimSpace;
  }

  lemma ThreeParts(a: string, b: string, c: string)
    requires Without(a, '/') && Without(b, '/') && Without(c, '/')
    ensures Split(a + "/" + (b + "/" + c), '/') == [a, b, c]
  {
    SplitFirst(a, '/', b + "/" + c);
    assert a + "/" + (b + "/" + c) == a + ['/'] + (b + "/" + c);
    SplitFirst(b, '/', c);
    assert IndexOf(c, '/') == |c|;
    assert Split(c, '/') == [c];
    hide Split, Without, IndexOf;
    assert [a] + ([b] + [c]) == [a, b, c];
  }

  lemma PlainJoin(a: string, b: string, c: string)
    requires Without(a, '#') && Without(b, '#') && Without(c, '#')
    ensures Without(a + "/" + (b + "/" + c), '#')
  {
  }

  lemma OnePart(s: string)
    requires Without(s, '/')
    ensures Split(s, '/') == [s]
  {
    assert IndexOf(s, '/') == |s|;
  }

  lemma SubjectTypeRead(t: SubjectType)
    requires PlainSubjectType(t)
    ensures SubjectTypeOf(SubjectTypeText(t)) == Some(t)
    ensures Without(SubjectTypeText(t), '#')
  {
    var kind := KindText(t.kind);
    hide KindText, KindOf, ToLower, TrimSpace, Without, Split;
    KindRead(t.kind);
    if IsGroup(t.kind) {
      TrimSpaceKeeps(t.objectClass);
      TrimSpaceKeeps(t.groupAttribute);
      hide Trimmed, SubjectTypeOf;
      PlainJoin(kind, t.objectClass, t.groupAttribute);
      ThreeParts(kind, t.objectClass, t.groupAttribute);
      SubjectTypeOfGroup(SubjectTypeText(t), kind, t.objectClass, t.groupAttribute, t.kind);
    } else {
      OnePart(kind);
    }
  }

  lemma OptionParsed(part: string)
    requires Without(part, '/') && Without(part, '#') && TrimSpace(part) != ""
    ensures PlainOption(TrimSpace(part))
  {
    TrimKeepsOut(part, '/');
    TrimKeepsOut(part, '#');
    TrimSpaceTrimmed(part);
  }

  lemma DefaultsPlain()
    ensures PlainOption("groupOfNames") && PlainOption("organizationalRole")
    ensures PlainOption("member") && PlainOption("roleOccupant")
  {
  }

  lemma SubjectTypeParsed(raw: string)
    requires Without(raw, '#') && SubjectTypeOf(raw).Some?
    ensures PlainSubjectType(SubjectTypeOf(raw).value)
  {
    var parts := Split(raw, '/');
    SplitKeepsOut(raw, '/', '#');
    DefaultsPlain();
    hide Split, KindOf, ToLower, PlainOption, Without;
    if |parts| > 1 && TrimSpace(parts[1]) != "" { OptionParsed(parts[1]); }
    if |parts| > 2 && TrimSpace(parts[2]) != "" { OptionParsed(parts[2]); }
    hide TrimSpace;
  }

  lemma SubjectTypeCanonical(t: SubjectType)
    requires PlainSubjectType(t)
    ensures PlainSubjectType(SubjectType(t.kind, ToLower(t.objectClass), ToLower(t.groupAttribute)))
  {
    LowerKeepsTrimmed(t.objectClass);
    LowerKeepsTrimmed(t.groupAttribute);
    LowerKeepsOut(t.objectClass, '/');
    LowerKeepsOut(t.objectClass, '#');
    LowerKeepsOut(t.groupAttribute, '/');
    LowerKeepsOut(t.groupAttribute, '#');
    hide Trimmed, Without;
  }

  // ----- whole values -----

  ghost predicate Plain(v: Value) {
    IsNumericOID(v.oid) && PlainPermissions(v.permissions) && PlainSubjectType(v.subjectType)
  }

  lemma HashJoin(a: string, rest: string)
    ensures a + "#" + rest == a + ['#'] + rest
  {
  }

  lemma FiveRead(a: string, b: string, c: string, d: string, e: string)
    requires Without(a, '#') && Without(b, '#') && Without(c, '#') && Without(d, '#')
    ensures SplitN(a + "#" + (b + "#" + (c + "#" + (d + "#" + e))), '#', 5) == [a, b, c, d, e]
  {
    hide Without;
    var four := d + "#" + e;
    var three := c + "#" + four;
    var two := b + "#" + three;
    HashJoin(a, two);
    HashJoin(b, three);
    HashJoin(c, four);
    HashJoin(d, e);
    SplitNFirst(a, '#', two, 5);
    SplitNFirst(b, '#', three, 4);
    SplitNFirst(c, '#', four, 3);
    SplitNFirst(d, '#', e, 2);
    assert SplitN(e, '#', 1) == [e];
    hide SplitN;
    assert [a] + ([b] + ([c] + ([d] + [e]))) == [a, b, c, d, e];
  }

  lemma OidKept(oid: string)
    requires IsNumericOID(oid)
    ensures TrimSpace(oid) == oid && Without(oid, '#')
  {
    TrimSpaceKeeps(oid);
  }

  lemma ScopeRead(scope: Scope)
    ensures ScopeOf(ToLower(TrimSpace(ScopeText(scope)))) == Some(scope)
    ensures Without(ScopeText(scope), '#')
  {
    assert LowerWord(ScopeText(scope));
    LowerWordKept(ScopeText(scope));
  }

  lemma FieldsOf(raw: string, a: string, b: string, c: string, d: string, e: string, v: Value)
    requires SplitN(raw, '#', 5) == [a, b, c, d, e] && TrimSpace(a) == v.oid && IsNumericOID(v.oid)
    requires ScopeOf(ToLower(TrimSpace(b))) == Some(v.scope) && PermissionsOf(c) == Some(v.permissions)
    requires SubjectTypeOf(d) == Some(v.subjectType) && e == v.subject
    ensures Fields(raw) == Some(v)
  {
    hide SplitN, TrimSpace, ToLower, ScopeOf, PermissionsOf, SubjectTypeOf, IsNumericOID;
  }

  /** Any value the parser can produce is read back from its printed form, whatever its subject. */
  lemma RenderedReadsBack(v: Value)
    requires Plain(v)
    ensures Fields(Render(v)) == Some(v)
  {
    hide PlainPermissions, PlainSubjectType, IsNumericOID, Without, ScopeOf, ToLower, TrimSpace, PermissionsOf,
         SubjectTypeOf, PermissionsText, SubjectTypeText, ScopeText, Fields, SplitN;
    OidKept(v.oid);
    ScopeRead(v.scope);
    FieldReadBack(v.permissions);
    SubjectTypeRead(v.subjectType);
    var b, c, d := ScopeText(v.scope), PermissionsText(v.permissions, None), SubjectTypeText(v.subjectType);
    FiveRead(v.oid, b, c, d, v.subject);
    FieldsOf(Render(v), v.oid, b, c, d, v.subject, v);
  }

  /** Different values print differently. */
  lemma RenderInjective(a: Value, b: Value)
    requires Plain(a) && Plain(b) && Render(a) == Render(b)
    ensures a == b
  {
    RenderedReadsBack(a);
    RenderedReadsBack(b);
    hide Fields, Plain, Render;
    assert Some(a) == Some(b);
  }

  lemma ParsedIsPlain(raw: string)
    requires Fields(raw).Some?
    ensures Plain(Fields(raw).value)
  {
    var parts := SplitN(raw, '#', 5);
    hide SplitN, TrimSpace, ToLower, ScopeOf, PermissionsOf, SubjectTypeOf, IsNumericOID, Without, PlainPermissions,
         PlainSubjectType;
    FieldParsed(parts[2]);
    SubjectTypeParsed(parts[3]);
  }

  lemma CanonicalIsPlain(v: Value, naming: Naming)
    requires Plain(v)
    ensures Plain(Canonical(v, naming))
  {
    hide PlainPermissions, PlainSubjectType, IsNumericOID, CanonicalPermissions, ToLower, CanonicalSubject;
    PermissionsCanonical(v.permissions);
    SubjectTypeCanonical(v.subjectType);
  }

  /**
   * Normalizing an ACI and parsing the result gives the canonical form of the original, except when the
   * canonical subject is itself unacceptable: a DN whose key is empty or does not parse.
   */
  lemma NormalizedReadsBack(raw: string, naming: Naming)
    requires Parse(raw, naming).Some?
    ensures var v := Parse(raw, naming).value;
            var c := Canonical(v, naming);
            NormalText(raw, naming).Some? &&
            Parse(NormalText(raw, naming).value, naming) ==
            if NamesEntry(v.subjectType.kind) && (c.subject == "" || naming(c.subject).None?) then None else Some(c)
  {
    var v := Parse(raw, naming).value;
    var c := Canonical(v, naming);
    ParsedIsPlain(raw);
    CanonicalIsPlain(v, naming);
    RenderedReadsBack(c);
    CanonicalSubjectAllowed(v, naming);
    hide Fields, Plain, Render, Canonical, SubjectAllowed;
  }

  lemma CanonicalSubjectAllowed(v: Value, naming: Naming)
    requires SubjectAllowed(v.subjectType.kind, v.subject, naming)
    ensures var c := Canonical(v, naming);
            c.subjectType.kind == v.subjectType.kind &&
            (SubjectAllowed(c.subjectType.kind, c.subject, naming) <==>
             !(NamesEntry(v.subjectType.kind) && (c.subject == "" || naming(c.subject).None?)))
  {
    hide CanonicalPermissions;
    if v.subjectType.kind == DnAttribute {
      LowerTrimmed(v.subject);
    }
  }

  lemma LowerTrimmed(s: string)
    ensures TrimSpace(ToLower(TrimSpace(s))) == ToLower(TrimSpace(s))
  {
    TrimSpaceTrimmed(s);
    hide TrimSpace;
    LowerKeepsTrimmed(TrimSpace(s));
    hide Trimmed, ToLower;
    TrimSpaceKeeps(ToLower(TrimSpace(s)));
  }

  /** A DN's key, read as a DN, has itself as its key; the empty DN's key is empty. */
  ghost predicate KeysReparse(naming: Naming) {
    forall text: string :: naming(text).Some? && naming(text).value != "" ==>
      naming(naming(text).value) == naming(text)
  }

  lemma SelectorsTwice(selectors: seq<AttributeSelector>)
    ensures CanonicalSelectors(CanonicalSelectors(selectors)) == CanonicalSelectors(selectors)
  {
    forall i | 0 <= i < |selectors| ensures ToLower(ToLower(selectors[i].name)) == ToLower(selectors[i].name) {
      LowerTwice(selectors[i].name);
    }
    hide ToLower;
  }

  lemma PermissionsTwice(permissions: seq<Permission>)
    ensures CanonicalPermissions(CanonicalPermissions(permissions)) == CanonicalPermissions(permissions)
  {
    forall i | 0 <= i < |permissions|
      ensures CanonicalSelectors(CanonicalSelectors(permissions[i].attributes)) ==
              CanonicalSelectors(permissions[i].attributes)
    {
      SelectorsTwice(permissions[i].attributes);
    }
    hide CanonicalSelectors;
  }

  lemma CanonicalTwice(v: Value, naming: Naming)
    requires KeysReparse(naming) && (NamesEntry(v.subjectType.kind) ==> Canonical(v, naming).subject != "")
    ensures Canonical(Canonical(v, naming), naming) == Canonical(v, naming)
  {
    PermissionsTwice(v.permissions);
    LowerTwice(v.subjectType.objectClass);
    LowerTwice(v.subjectType.groupAttribute);
    LowerTrimmed(v.subject);
    LowerTwice(TrimSpace(v.subject));
    hide CanonicalPermissions, ToLower, TrimSpace;
  }

  /** Normalizing twice is normalizing once; only a subject naming the empty DN is not normal a second time. */
  lemma NormalizeIsIdempotent(raw: string, naming: Naming)
    requires KeysReparse(naming) && Parse(raw, naming).Some?
    ensures var v := Parse(raw, naming).value;
            var once := NormalText(raw, naming);
            NormalText(once.value, naming) == once <==>
            !(NamesEntry(v.subjectType.kind) && naming(v.subject) == Some(""))
  {
    var v := Parse(raw, naming).value;
    NormalizedReadsBack(raw, naming);
    var emptyName := NamesEntry(v.subjectType.kind) && naming(v.subject) == Some("");
    assert Canonical(v, naming).subject == CanonicalSubject(v.subjectType.kind, v.subject, naming);
    if !emptyName { CanonicalTwice(v, naming); }
    hide Parse, Render, Canonical;
  }

  // ----- comparison -----

  /** bytes.Compare. */
  function CompareText(a: string, b: string): int
    decreases |a|
  {
    if a == "" && b == "" then 0
    else if a == "" then -1
    else if b == "" then 1
    else if a[0] != b[0] then (if a[0] < b[0] then -1 else 1)
    else CompareText(a[1..], b[1..])
  }

  lemma {:induction false} CompareTextEqual(a: string, b: string)
    ensures CompareText(a, b) == 0 <==> a == b
    decreases |a|
  {
    if a != "" && b != "" && a[0] == b[0] {
      CompareTextEqual(a[1..], b[1..]);
      assert a == [a[0]] + a[1..] && b == [b[0]] + b[1..];
    }
  }

  /** Compare. */
  function Compare(left: string, right: string, naming: Naming): Option<int> {
    match (NormalText(left, naming), NormalText(right, naming))
    case (Some(a), Some(b)) => Some(CompareText(a, b))
    case _ => None
  }

  lemma ParsedCanonicalIsPlain(raw: string, naming: Naming)
    requires Parse(raw, naming).Some?
    ensures Plain(Canonical(Parse(raw, naming).value, naming))
  {
    ParsedIsPlain(raw);
    hide Fields, Plain, Canonical;
    CanonicalIsPlain(Parse(raw, naming).value, naming);
  }

  /** Two ACIs compare equal exactly when their canonical forms are the same value. */
  lemma CompareDecidesCanonicalEquality(left: string, right: string, naming: Naming)
    requires Parse(left, naming).Some? && Parse(right, naming).Some?
    ensures Compare(left, right, naming) == Some(0) <==>
            Canonical(Parse(left, naming).value, naming) == Canonical(Parse(right, naming).value, naming)
  {
    hide Fields, Parse, Plain, Render, Canonical, CompareText;
    var a, b := Canonical(Parse(left, naming).value, naming), Canonical(Parse(right, naming).value, naming);
    ParsedCanonicalIsPlain(left, naming);
    ParsedCanonicalIsPlain(right, naming);
    CompareTextEqual(Render(a), Render(b));
    if Render(a) == Render(b) { RenderInjective(a, b); }
  }
}
