/** The canonical text of an ACI value: Normalize prints it, Parse reads it back, Compare orders by it. */
module AciNormal {
  import opened Text
  import opened AciText

  // ----- printing -----

  function SelectorText(selector: AttributeSelector): string {
    if selector.all then "[all]"
    else selector.name +
         if selector.hasValue then "=" + selector.value + if selector.prefix then "*" else "" else ""
  }

  function SelectorTexts(selectors: seq<AttributeSelector>): (texts: seq<string>)
    ensures |texts| == |selectors|
    ensures forall i :: 0 <= i < |texts| ==> texts[i] == SelectorText(selectors[i])
  {
    if selectors == [] then [] else [SelectorText(selectors[0])] + SelectorTexts(selectors[1..])
  }

  function SelectorsText(selectors: seq<AttributeSelector>): string { Join(SelectorTexts(selectors), ',') }

  function ActionWord(grant: bool): string { if grant then "grant" else "deny" }

  /** What introduces a permission: nothing within an action, else the action's word after any separator. */
  function Opening(p: Permission, previous: Option<nat>): string {
    if previous == Some(p.action) then "" else (if previous.Some? then "$" else "") + ActionWord(p.grant)
  }

  function ClauseText(rights: set<Right>, attributes: seq<AttributeSelector>): string {
    ";" + RightsText(rights) + (";" + SelectorsText(attributes))
  }

  /** The permission list, given the action number of the permission printed before it. */
  function PermissionsText(permissions: seq<Permission>, previous: Option<nat>): string
    decreases |permissions|
  {
    if permissions == [] then ""
    else
      var p := permissions[0];
      Opening(p, previous) + (ClauseText(p.rights, p.attributes) + PermissionsText(permissions[1..], Some(p.action)))
  }

  function ScopeText(scope: Scope): string {
    match scope case ScopeEntry => "entry" case ScopeChildren => "children" case ScopeSubtree => "subtree"
  }

  function KindText(kind: SubjectKind): string {
    match kind
    case Public => "public" case Users => "users" case Self => "self" case AccessId => "access-id"
    case Subtree => "subtree" case OneLevel => "onelevel" case Children => "children" case DnAttribute => "dnattr"
    case Group => "group" case Role => "role" case SetExpression => "set" case SetReference => "set-ref"
  }

  function SubjectTypeText(t: SubjectType): string {
    if IsGroup(t.kind) then KindText(t.kind) + "/" + (t.objectClass + "/" + t.groupAttribute) else KindText(t.kind)
  }

  function Render(v: Value): string {
    v.oid + "#" + (ScopeText(v.scope) + "#" + (PermissionsText(v.permissions, None) + "#" +
      (SubjectTypeText(v.subjectType) + "#" + v.subject)))
  }

  // ----- the canonical form -----

  function CanonicalSelectors(selectors: seq<AttributeSelector>): (r: seq<AttributeSelector>)
    ensures |r| == |selectors|
    ensures forall i :: 0 <= i < |r| ==> r[i] == selectors[i].(name := ToLower(selectors[i].name))
  {
    seq(|selectors|, i requires 0 <= i < |selectors| => selectors[i].(name := ToLower(selectors[i].name)))
  }

  function CanonicalPermissions(permissions: seq<Permission>): (r: seq<Permission>)
    ensures |r| == |permissions|
    ensures forall i :: 0 <= i < |r| ==>
              r[i] == permissions[i].(attributes := CanonicalSelectors(permissions[i].attributes))
  {
    seq(|permissions|, i requires 0 <= i < |permissions| =>
      permissions[i].(attributes := CanonicalSelectors(permissions[i].attributes)))
  }

  /** Case is dropped from DNs (through their keys) and attribute names, and unused subjects altogether. */
  function CanonicalSubject(kind: SubjectKind, subject: string, naming: Naming): string {
    if NamesEntry(kind) then (match naming(subject) case Some(key) => key case None => "")
    else if kind == DnAttribute then ToLower(TrimSpace(subject))
    else if kind == SetExpression || kind == SetReference then subject
    else ""
  }

  function Canonical(v: Value, naming: Naming): Value {
    v.(permissions := CanonicalPermissions(v.permissions),
       subjectType := SubjectType(v.subjectType.kind, ToLower(v.subjectType.objectClass),
                                  ToLower(v.subjectType.groupAttribute)),
       subject := CanonicalSubject(v.subjectType.kind, v.subject, naming))
  }

  function NormalText(raw: string, naming: Naming): Option<string> {
    match Parse(raw, naming) case None => None case Some(v) => Some(Render(Canonical(v, naming)))
  }

  // ----- Normalize -----

  lemma SelectorTextsSnoc(selectors: seq<AttributeSelector>, last: AttributeSelector)
    ensures SelectorTexts(selectors + [last]) == SelectorTexts(selectors) + [SelectorText(last)]
  {
  }

  /** One round of the selector loop of Normalize. */
  method WriteSelector(selector: AttributeSelector) returns (output: string)
    ensures output == SelectorText(selector.(name := ToLower(selector.name)))
  {
    hide ToLower;
    if selector.all { return "[all]"; }
    var value := "";
    if selector.hasValue { value := "=" + selector.value + if selector.prefix then "*" else ""; }
    output := ToLower(selector.name) + value;
  }

  /** The selector loop of Normalize. */
  method WriteSelectors(selectors: seq<AttributeSelector>) returns (output: string)
    ensures output == SelectorsText(CanonicalSelectors(selectors))
  {
    output := "";
    ghost var canonical := CanonicalSelectors(selectors);
    hide ToLower, CanonicalSelectors;
    for i := 0 to |selectors|
      invariant output == SelectorsText(canonical[..i])
    {
      assert canonical[..i + 1] == canonical[..i] + [canonical[i]];
      ghost var texts := SelectorTexts(canonical[..i]);
      SelectorTextsSnoc(canonical[..i], canonical[i]);
      JoinSnoc(texts, SelectorText(canonical[i]), ',');
      hide Join, SelectorTexts, SelectorText;
      if i > 0 { output := output + [',']; }
      var piece := WriteSelector(selectors[i]);
      output := output + piece;
    }
    assert canonical[..|selectors|] == canonical;
  }

  lemma Regroup(done: string, opening: string, body: string, rest: string)
    ensures done + (opening + (body + rest)) == done + opening + body + rest
  {
  }

  /** The permission loop of Normalize, over the flat list and its action numbers. */
  method WritePermissions(permissions: seq<Permission>) returns (output: string)
    ensures output == PermissionsText(CanonicalPermissions(permissions), None)
  {
    output := "";
    ghost var canonical := CanonicalPermissions(permissions);
    ghost var previous: Option<nat> := None;
    assert canonical[0..] == canonical;
    assert "" + PermissionsText(canonical, None) == PermissionsText(canonical, None);
    hide CanonicalPermissions, RightsText, SelectorsText, ActionWord;
    for i := 0 to |permissions|
      invariant previous == if i == 0 then None else Some(permissions[i - 1].action)
      invariant output + PermissionsText(canonical[i..], previous) == PermissionsText(canonical, None)
    {
      ghost var rest := canonical[i..];
      assert rest[0] == canonical[i] && rest[1..] == canonical[i + 1..];
      var permission := permissions[i];
      Regroup(output, Opening(canonical[i], previous), ClauseText(canonical[i].rights, canonical[i].attributes),
              PermissionsText(canonical[i + 1..], Some(permission.action)));
      var newAction := i == 0 || permission.action != permissions[i - 1].action;
      var opening := "";
      if newAction { opening := (if i > 0 then "$" else "") + ActionWord(permission.grant); }
      assert opening == Opening(canonical[i], previous);
      hide Opening;
      var rights := WriteRights(permission.rights);
      var selectors := WriteSelectors(permission.attributes);
      var body := ";" + rights + (";" + selectors);
      assert body == ClauseText(canonical[i].rights, canonical[i].attributes);
      hide ClauseText;
      output := output + opening + body;
      previous := Some(permission.action);
    }
    NoPermissionsText(previous);
    hide PermissionsText;
    assert canonical[|permissions|..] == [];
    assert output + "" == output;
  }

  lemma NoPermissionsText(previous: Option<nat>)
    ensures PermissionsText([], previous) == ""
  {
  }

  /** writeSubjectType. */
  method WriteSubjectType(t: SubjectType) returns (output: string)
    ensures output == SubjectTypeText(SubjectType(t.kind, ToLower(t.objectClass), ToLower(t.groupAttribute)))
  {
    hide ToLower, KindText;
    output := KindText(t.kind);
    if IsGroup(t.kind) {
      output := output + "/" + (ToLower(t.objectClass) + "/" + ToLower(t.groupAttribute));
    }
  }

  /** The last field: a DN's key, a folded attribute name, a set expression, or nothing. */
  method WriteSubject(v: Value, naming: Naming) returns (output: string)
    ensures output == CanonicalSubject(v.subjectType.kind, v.subject, naming)
  {
    output := "";
    if NamesEntry(v.subjectType.kind) && naming(v.subject).Some? {
      output := naming(v.subject).value;
    } else if v.subjectType.kind == DnAttribute {
      output := ToLower(TrimSpace(v.subject));
    } else if v.subjectType.kind == SetExpression || v.subjectType.kind == SetReference {
      output := v.subject;
    }
  }

  /** Normalize. */
  method Normalize(raw: string, naming: Naming) returns (result: Option<string>)
    ensures result == NormalText(raw, naming)
  {
    hide Parse, PermissionsText, CanonicalPermissions, ToLower, CanonicalSubject, SubjectTypeText, ScopeText;
    var parsed := ParseValue(raw, naming);
    if parsed.None? { return None; }
    var v := parsed.value;
    var permissions := WritePermissions(v.permissions);
    var subjectType := WriteSubjectType(v.subjectType);
    var subject := WriteSubject(v, naming);
    var output := v.oid + "#" + ScopeText(v.scope) + "#" + permissions + "#" + subjectType + "#" + subject;
    FiveFields(v.oid, ScopeText(v.scope), permissions, subjectType, subject);
    result := Some(output);
  }

  lemma FiveFields(a: string, b: string, c: string, d: string, e: string)
    ensures a + "#" + b + "#" + c + "#" + d + "#" + e == a + "#" + (b + "#" + (c + "#" + (d + "#" + e)))
  {
  }
}
