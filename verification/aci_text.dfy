/**
 * The text form of OpenLDAP access-control information: OID#scope#permissions#subject type#subject.
 * Parsing, printing in canonical form, and comparison.
 */
module AciText {
  import opened Text

  datatype Scope = ScopeEntry | ScopeChildren | ScopeSubtree

  datatype SubjectKind =
    | Public | Users | Self | AccessId | Subtree | OneLevel | Children | DnAttribute
    | Group | Role | SetExpression | SetReference

  datatype Right = AuthRight | DiscloseRight | CompareRight | SearchRight | ReadRight | WriteRight

  datatype AttributeSelector =
    AttributeSelector(name: string, value: string, all: bool, hasValue: bool, prefix: bool)

  datatype Permission = Permission(grant: bool, rights: set<Right>, attributes: seq<AttributeSelector>, action: nat)

  datatype SubjectType = SubjectType(kind: SubjectKind, objectClass: string, groupAttribute: string)

  datatype Value = Value(oid: string, scope: Scope, permissions: seq<Permission>, subjectType: SubjectType,
                         subject: string)

  /** Reads a DN and gives its key; None when the text is not a DN. */
  type Naming = string -> Option<string>

  // ----- object identifiers -----

  /** Dotted digits: no dot at either end and no two in a row. */
  predicate IsNumericOID(s: string) {
    s != "" && s[0] != '.' && s[|s| - 1] != '.' &&
    (forall i :: 0 <= i < |s| ==> s[i] == '.' || IsDigit(s[i])) &&
    forall i :: 0 <= i < |s| - 1 ==> !(s[i] == '.' && s[i + 1] == '.')
  }

  /** validNumericOID. */
  method ValidNumericOID(s: string) returns (valid: bool)
    ensures valid == IsNumericOID(s)
  {
    if s == "" || s[0] == '.' || s[|s| - 1] == '.' { return false; }
    var lastDot := false;
    for i := 0 to |s|
      invariant lastDot == (i > 0 && s[i - 1] == '.')
      invariant forall k :: 0 <= k < i ==> s[k] == '.' || IsDigit(s[k])
      invariant forall k :: 0 <= k < i - 1 ==> !(s[k] == '.' && s[k + 1] == '.')
    {
      if s[i] == '.' && !lastDot {
        lastDot := true;
      } else if IsDigit(s[i]) {
        lastDot := false;
      } else {
        if s[i] == '.' { assert s[i - 1] == '.' && s[i - 1 + 1] == '.'; }
        return false;
      }
    }
    valid := !lastDot;
  }

  // ----- rights -----

  const RightOrder: seq<Right> := [AuthRight, DiscloseRight, CompareRight, SearchRight, ReadRight, WriteRight]

  function Letter(right: Right): char {
    match right
    case AuthRight => 'x' case DiscloseRight => 'd' case CompareRight => 'c'
    case SearchRight => 's' case ReadRight => 'r' case WriteRight => 'w'
  }

  function RightOf(text: string): Option<Right> {
    if text == "x" then Some(AuthRight) else if text == "d" then Some(DiscloseRight)
    else if text == "c" then Some(CompareRight) else if text == "s" then Some(SearchRight)
    else if text == "r" then Some(ReadRight) else if text == "w" then Some(WriteRight) else None
  }

  function RightsIn(parts: seq<string>): Option<set<Right>> {
    if parts == [] then Some({})
    else
      match (RightOf(TrimSpace(parts[0])), RightsIn(parts[1..]))
      case (Some(right), Some(more)) => Some({right} + more)
      case _ => None
  }

  function RightsOf(raw: string): Option<set<Right>> { RightsIn(Split(raw, ',')) }

  /** parseRights. */
  method ParseRights(raw: string) returns (result: Option<set<Right>>)
    ensures result == RightsOf(raw)
  {
    var parts := Split(raw, ',');
    var rights: set<Right> := {};
    for i := 0 to |parts|
      invariant RightsIn(parts).Some? <==> RightsIn(parts[i..]).Some?
      invariant RightsIn(parts).Some? ==> RightsIn(parts).value == rights + RightsIn(parts[i..]).value
      invariant i > 0 ==> rights != {}
    {
      assert parts[i..][1..] == parts[i + 1..];
      var part := TrimSpace(parts[i]);
      if |part| != 1 { return None; }
      assert part == [part[0]];
      match RightOf(part) {
        case None => return None;
        case Some(right) => rights := rights + {right};
      }
    }
    if rights == {} { return None; }
    return Some(rights);
  }

  function Letters(rights: set<Right>, order: seq<Right>): seq<string> {
    if order == [] then []
    else (if order[0] in rights then [[Letter(order[0])]] else []) + Letters(rights, order[1..])
  }

  function RightsText(rights: set<Right>): string { Join(Letters(rights, RightOrder), ',') }

  lemma JoinSnoc(parts: seq<string>, last: string, c: char)
    ensures Join(parts + [last], c) == if parts == [] then last else Join(parts, c) + [c] + last
  {
    if parts == [] {
      assert parts + [last] == [last];
    } else {
      assert (parts + [last])[1..] == parts[1..] + [last];
      if |parts| > 1 { JoinSnoc(parts[1..], last, c); }
    }
  }

  lemma LettersSnoc(rights: set<Right>, order: seq<Right>, last: Right)
    ensures Letters(rights, order + [last]) ==
            Letters(rights, order) + if last in rights then [[Letter(last)]] else []
  {
    if order != [] {
      assert (order + [last])[1..] == order[1..] + [last];
      LettersSnoc(rights, order[1..], last);
    }
  }

  /** writeRights. */
  method WriteRights(rights: set<Right>) returns (output: string)
    ensures output == RightsText(rights)
  {
    output := "";
    var written := false;
    for i := 0 to |RightOrder|
      invariant output == Join(Letters(rights, RightOrder[..i]), ',')
      invariant written == (Letters(rights, RightOrder[..i]) != [])
    {
      var candidate := RightOrder[i];
      assert RightOrder[..i + 1] == RightOrder[..i] + [candidate];
      LettersSnoc(rights, RightOrder[..i], candidate);
      JoinSnoc(Letters(rights, RightOrder[..i]), [Letter(candidate)], ',');
      if candidate !in rights {
        assert Letters(rights, RightOrder[..i + 1]) == Letters(rights, RightOrder[..i]);
        continue;
      }
      if written { output := output + ","; }
      output := output + [Letter(candidate)];
      written := true;
    }
    assert RightOrder[..|RightOrder|] == RightOrder;
  }

  function Present(rights: set<Right>, order: seq<Right>): set<Right> { set r | r in order && r in rights }

  lemma LetterRead(right: Right)
    ensures RightOf(TrimSpace([Letter(right)])) == Some(right)
  {
    TrimSpaceKeeps([Letter(right)]);
  }

  lemma {:induction false} LettersRead(rights: set<Right>, order: seq<Right>)
    ensures RightsIn(Letters(rights, order)) == Some(Present(rights, order))
  {
    if order == [] {
      assert Present(rights, order) == {};
    } else {
      LettersRead(rights, order[1..]);
      LetterRead(order[0]);
      hide RightOf, Letter, TrimSpace;
      var rest := Letters(rights, order[1..]);
      if order[0] in rights {
        assert ([[Letter(order[0])]] + rest)[1..] == rest;
        assert Present(rights, order) == {order[0]} + Present(rights, order[1..]);
      } else {
        assert [] + rest == rest;
        assert Present(rights, order) == Present(rights, order[1..]);
      }
    }
  }

  lemma {:induction false} LettersPlain(rights: set<Right>, order: seq<Right>, c: char)
    requires !IsAlpha(c)
    ensures forall i :: 0 <= i < |Letters(rights, order)| ==> Without(Letters(rights, order)[i], c)
  {
    if order != [] { LettersPlain(rights, order[1..], c); }
  }

  lemma AllPresent(rights: set<Right>)
    ensures Present(rights, RightOrder) == rights
  {
    forall r: Right ensures r in RightOrder {
      match r
      case AuthRight => assert RightOrder[0] == r;
      case DiscloseRight => assert RightOrder[1] == r;
      case CompareRight => assert RightOrder[2] == r;
      case SearchRight => assert RightOrder[3] == r;
      case ReadRight => assert RightOrder[4] == r;
      case WriteRight => assert RightOrder[5] == r;
    }
  }

  /** Printing rights and reading them gives the same set. */
  lemma RightsReadBack(rights: set<Right>)
    requires rights != {}
    ensures RightsOf(RightsText(rights)) == Some(rights)
  {
    LettersRead(rights, RightOrder);
    AllPresent(rights);
    LettersPlain(rights, RightOrder, ',');
    hide Letters, Present, Join, Split, RightOrder;
    assert Letters(rights, RightOrder) != [];
    SplitJoin(Letters(rights, RightOrder), ',');
  }

  lemma RightsPlain(rights: set<Right>, c: char)
    requires c != ',' && !IsAlpha(c)
    ensures Without(RightsText(rights), c)
  {
    LettersPlain(rights, RightOrder, c);
    hide Letters, Join, RightOrder;
    JoinWithout(Letters(rights, RightOrder), ',', c);
  }

  // ----- lists read item by item; one bad item spoils the list -----

  function Before<T>(front: seq<T>, rest: Option<seq<T>>): Option<seq<T>> {
    match rest case None => None case Some(more) => Some(front + more)
  }

  lemma BeforeTwice<T>(a: seq<T>, b: seq<T>, rest: Option<seq<T>>)
    ensures Before(a, Before(b, rest)) == Before(a + b, rest)
  {
    if rest.Some? { assert a + (b + rest.value) == a + b + rest.value; }
  }

  lemma BeforeNothing<T>(rest: Option<seq<T>>, done: seq<T>)
    ensures Before([], rest) == rest && Before(done, Some([])) == Some(done)
  {
    if rest.Some? { assert [] + rest.value == rest.value; }
    assert done + [] == done;
  }

  // ----- attribute selectors -----

  const AllSelector := AttributeSelector("", "", true, false, false)

  /** What follows '=': a value, up to a '*' when there is one. */
  function ValueSelector(name: string, text: string): AttributeSelector {
    var wildcard := IndexOf(text, '*');
    if wildcard < |text| then AttributeSelector(name, text[..wildcard], false, true, true)
    else AttributeSelector(name, text, false, true, false)
  }

  function SelectorOf(raw: string): Option<AttributeSelector> {
    var part := TrimSpace(raw);
    if part == "" then None
    else if ToLower(part) == "[all]" then Some(AllSelector)
    else if ToLower(part) == "[entry]" then Some(AttributeSelector("entry", "", false, false, false))
    else if ToLower(part) == "[children]" then Some(AttributeSelector("children", "", false, false, false))
    else
      var separator := IndexOf(part, '=');
      if separator == |part| then Some(AttributeSelector(part, "", false, false, false))
      else
        var name := TrimSpace(part[..separator]);
        if name == "" then None else Some(ValueSelector(name, TrimSpace(part[separator + 1..])))
  }

  function SelectorsIn(parts: seq<string>): Option<seq<AttributeSelector>> {
    if parts == [] then Some([])
    else
      match SelectorOf(parts[0])
      case None => None
      case Some(selector) => Before([selector], SelectorsIn(parts[1..]))
  }

  function SelectorsOf(raw: string): Option<seq<AttributeSelector>> { SelectorsIn(Split(raw, ',')) }

  /** One round of the loop of parseAttributeSelectors. */
  method ParseSelector(raw: string) returns (result: Option<AttributeSelector>)
    ensures result == SelectorOf(raw)
  {
    hide IndexOf, TrimSpace, ToLower;
    var part := TrimSpace(raw);
    if part == "" { return None; }
    var kind := ToLower(part);
    if kind == "[all]" { return Some(AllSelector); }
    if kind == "[entry]" { return Some(AttributeSelector("entry", "", false, false, false)); }
    if kind == "[children]" { return Some(AttributeSelector("children", "", false, false, false)); }
    var selector := AttributeSelector(part, "", false, false, false);
    var separator := IndexOf(part, '=');
    if separator < |part| {
      selector := selector.(name := TrimSpace(part[..separator]), value := TrimSpace(part[separator + 1..]),
                            hasValue := true);
      var wildcard := IndexOf(selector.value, '*');
      if wildcard < |selector.value| {
        selector := selector.(value := selector.value[..wildcard], prefix := true);
      }
    }
    if selector.name == "" { return None; }
    return Some(selector);
  }

  /** parseAttributeSelectors. */
  method ParseAttributeSelectors(raw: string) returns (result: Option<seq<AttributeSelector>>)
    ensures result == SelectorsOf(raw)
  {
    var parts := Split(raw, ',');
    var selectors: seq<AttributeSelector> := [];
    hide SelectorOf, Split;
    BeforeNothing(SelectorsIn(parts), []);
    for i := 0 to |parts|
      invariant Before(selectors, SelectorsIn(parts[i..])) == SelectorsIn(parts)
    {
      assert parts[i..][1..] == parts[i + 1..];
      var selector := ParseSelector(parts[i]);
      if selector.None? { return None; }
      BeforeTwice(selectors, [selector.value], SelectorsIn(parts[i + 1..]));
      selectors := selectors + [selector.value];
    }
    BeforeNothing(Some(selectors), selectors);
    return Some(selectors);
  }

  // ----- permissions -----

  datatype Clause = Clause(rights: set<Right>, attributes: seq<AttributeSelector>)

  datatype Action = Action(grant: bool, clauses: seq<Clause>)

  function ClausesIn(pieces: seq<string>): Option<seq<Clause>> {
    if pieces == [] then Some([])
    else if |pieces| == 1 then None
    else
      match (RightsOf(pieces[0]), SelectorsOf(pieces[1]))
      case (Some(rights), Some(attributes)) => Before([Clause(rights, attributes)], ClausesIn(pieces[2..]))
      case _ => None
  }

  function ActionOf(raw: string): Option<Action> {
    var parts := Split(raw, ';');
    if |parts| < 3 || |parts| % 2 == 0 then None
    else
      var word := ToLower(TrimSpace(parts[0]));
      if word != "grant" && word != "deny" then None
      else
        match ClausesIn(parts[1..])
        case None => None
        case Some(clauses) => Some(Action(word == "grant", clauses))
  }

  function ActionsIn(texts: seq<string>): Option<seq<Action>> {
    if texts == [] then Some([])
    else
      match ActionOf(texts[0])
      case None => None
      case Some(action) => Before([action], ActionsIn(texts[1..]))
  }

  /** The permissions of one action, all carrying its number. */
  function Numbered(grant: bool, clauses: seq<Clause>, action: nat): (permissions: seq<Permission>)
    ensures |permissions| == |clauses|
  {
    if clauses == [] then []
    else [Permission(grant, clauses[0].rights, clauses[0].attributes, action)] + Numbered(grant, clauses[1..], action)
  }

  function Flatten(actions: seq<Action>, first: nat): seq<Permission> {
    if actions == [] then []
    else Numbered(actions[0].grant, actions[0].clauses, first) + Flatten(actions[1..], first + 1)
  }

  function PermissionsOf(raw: string): Option<seq<Permission>> {
    match ActionsIn(Split(raw, '$'))
    case None => None
    case Some(actions) => Some(Flatten(actions, 0))
  }

  lemma SelectorNameTrimmed(raw: string)
    requires SelectorOf(raw).Some?
    ensures TrimSpace(SelectorOf(raw).value.name) == SelectorOf(raw).value.name
  {
    hide TrimSpace, IndexOf, ToLower;
    TrimSpaceKeeps(SelectorOf(raw).value.name);
  }

  lemma {:induction false} SelectorNamesTrimmed(parts: seq<string>)
    requires SelectorsIn(parts).Some?
    ensures forall s :: s in SelectorsIn(parts).value ==> TrimSpace(s.name) == s.name
  {
    if parts != [] {
      SelectorNamesTrimmed(parts[1..]);
      SelectorNameTrimmed(parts[0]);
      hide SelectorOf, TrimSpace;
    }
  }

  lemma NumberedFirst(grant: bool, clause: Clause, rest: Option<seq<Clause>>, action: nat, soFar: seq<Permission>)
    requires rest.Some?
    ensures soFar + Numbered(grant, Before([clause], rest).value, action) ==
            soFar + [Permission(grant, clause.rights, clause.attributes, action)] + Numbered(grant, rest.value, action)
  {
    assert ([clause] + rest.value)[1..] == rest.value;
  }

  /** What one action adds to the permissions found so far. */
  function Extended(soFar: seq<Permission>, grant: bool, clauses: Option<seq<Clause>>, action: nat):
    Option<seq<Permission>>
  {
    match clauses case None => None case Some(list) => Some(soFar + Numbered(grant, list, action))
  }

  lemma ExtendedStep(soFar: seq<Permission>, grant: bool, clause: Clause, rest: Option<seq<Clause>>, action: nat)
    ensures Extended(soFar, grant, Before([clause], rest), action) ==
            Extended(soFar + [Permission(grant, clause.rights, clause.attributes, action)], grant, rest, action)
  {
    if rest.Some? { NumberedFirst(grant, clause, rest, action, soFar); }
  }

  lemma ExtendedNothing(soFar: seq<Permission>, grant: bool, action: nat)
    ensures Extended(soFar, grant, ClausesIn([]), action) == Some(soFar)
  {
    assert soFar + [] == soFar;
  }

  lemma ClausesStep(pieces: seq<string>)
    requires |pieces| >= 2
    ensures RightsOf(pieces[0]).None? || SelectorsOf(pieces[1]).None? ==> ClausesIn(pieces) == None
    ensures RightsOf(pieces[0]).Some? && SelectorsOf(pieces[1]).Some? ==>
              ClausesIn(pieces) == Before([Clause(RightsOf(pieces[0]).value, SelectorsOf(pieces[1]).value)],
                                          ClausesIn(pieces[2..]))
  {
  }

  /** parsePermissions trims selector names once more; they are trimmed already. */
  method TrimNames(raw: string, selectors: seq<AttributeSelector>) returns (trimmed: seq<AttributeSelector>)
    requires SelectorsOf(raw) == Some(selectors)
    ensures trimmed == selectors
  {
    SelectorNamesTrimmed(Split(raw, ','));
    hide Split, TrimSpace, SelectorsIn;
    trimmed := selectors;
    for i := 0 to |selectors|
      invariant trimmed == selectors
    {
      trimmed := trimmed[i := trimmed[i].(name := TrimSpace(trimmed[i].name))];
    }
  }

  /** The inner loop of parsePermissions. */
  method ParseClauses(parts: seq<string>, grant: bool, action: nat, soFar: seq<Permission>)
    returns (result: Option<seq<Permission>>)
    requires |parts| >= 3 && |parts| % 2 == 1
    ensures result == Extended(soFar, grant, ClausesIn(parts[1..]), action)
  {
    var permissions := soFar;
    var index := 1;
    hide ClausesIn, Numbered, RightsOf, SelectorsOf, TrimSpace, Before;
    ghost var pairs := |parts| / 2;
    ghost var done := 0;
    while index < |parts|
      invariant |parts| == 2 * pairs + 1 && index == 2 * done + 1 <= |parts|
      invariant Extended(permissions, grant, ClausesIn(parts[index..]), action) ==
                Extended(soFar, grant, ClausesIn(parts[1..]), action)
    {
      ghost var rest := parts[index..];
      assert rest[0] == parts[index] && rest[1] == parts[index + 1] && rest[2..] == parts[index + 2..];
      ClausesStep(rest);
      var rights := ParseRights(parts[index]);
      if rights.None? { return None; }
      var selectors := ParseAttributeSelectors(parts[index + 1]);
      if selectors.None? { return None; }
      var attributes := TrimNames(parts[index + 1], selectors.value);
      ExtendedStep(permissions, grant, Clause(rights.value, attributes), ClausesIn(parts[index + 2..]), action);
      permissions := permissions + [Permission(grant, rights.value, attributes, action)];
      index := index + 2;
      done := done + 1;
    }
    ExtendedNothing(permissions, grant, action);
    assert parts[index..] == [];
    return Some(permissions);
  }

  /** What the actions from number k on add. */
  function Remaining(soFar: seq<Permission>, actions: Option<seq<Action>>, k: nat): Option<seq<Permission>> {
    match actions case None => None case Some(list) => Some(soFar + Flatten(list, k))
  }

  lemma RemainingStep(soFar: seq<Permission>, action: Action, rest: Option<seq<Action>>, k: nat)
    ensures Remaining(soFar, Before([action], rest), k) ==
            Remaining(soFar + Numbered(action.grant, action.clauses, k), rest, k + 1)
  {
    if rest.Some? {
      assert ([action] + rest.value)[1..] == rest.value;
      var here, after := Numbered(action.grant, action.clauses, k), Flatten(rest.value, k + 1);
      assert soFar + (here + after) == soFar + here + after;
    }
  }

  /** parsePermissions. */
  method ParsePermissions(raw: string) returns (result: Option<seq<Permission>>)
    ensures result == PermissionsOf(raw)
  {
    var actions := Split(raw, '$');
    var permissions: seq<Permission> := [];
    assert Remaining([], ActionsIn(actions), 0) == PermissionsOf(raw) by {
      if ActionsIn(actions).Some? { BeforeNothing(Some(Flatten(ActionsIn(actions).value, 0)), []); }
    }
    hide Split, TrimSpace, ToLower, ClausesIn, Numbered, Flatten, PermissionsOf;
    for k := 0 to |actions|
      invariant Remaining(permissions, ActionsIn(actions[k..]), k) == PermissionsOf(raw)
    {
      assert actions[k..][1..] == actions[k + 1..];
      var parts := Split(actions[k], ';');
      if |parts| < 3 || |parts| % 2 == 0 { return None; }
      var word := ToLower(TrimSpace(parts[0]));
      if word != "grant" && word != "deny" { return None; }
      var extended := ParseClauses(parts, word == "grant", k, permissions);
      if extended.None? { return None; }
      RemainingStep(permissions, ActionOf(actions[k]).value, ActionsIn(actions[k + 1..]), k);
      permissions := extended.value;
    }
    FlattenNothing(|actions|);
    assert permissions + [] == permissions;
    return Some(permissions);
  }

  lemma FlattenNothing(k: nat)
    ensures Flatten([], k) == []
  {
  }

  // ----- subjects -----

  function KindOf(word: string): Option<SubjectKind> {
    if word == "public" then Some(Public) else if word == "users" then Some(Users)
    else if word == "self" then Some(Self) else if word == "access-id" then Some(AccessId)
    else if word == "subtree" then Some(Subtree) else if word == "onelevel" then Some(OneLevel)
    else if word == "children" then Some(Children) else if word == "dnattr" then Some(DnAttribute)
    else if word == "group" then Some(Group) else if word == "role" then Some(Role)
    else if word == "set" then Some(SetExpression) else if word == "set-ref" then Some(SetReference) else None
  }

  predicate IsGroup(kind: SubjectKind) { kind == Group || kind == Role }

  /** The subject kinds whose subject is a DN. */
  predicate NamesEntry(kind: SubjectKind) {
    kind == AccessId || kind == Subtree || kind == OneLevel || kind == Children || IsGroup(kind)
  }

  function SubjectTypeOf(raw: string): Option<SubjectType> {
    var parts := Split(raw, '/');
    var kind := KindOf(ToLower(TrimSpace(parts[0])));
    if kind.None? then None
    else if !IsGroup(kind.value) then (if |parts| == 1 then Some(SubjectType(kind.value, "", "")) else None)
    else if |parts| > 3 || exists i :: 1 <= i < |parts| && TrimSpace(parts[i]) == "" then None
    else
      var class_ := if kind.value == Group then "groupOfNames" else "organizationalRole";
      var attribute := if kind.value == Group then "member" else "roleOccupant";
      Some(SubjectType(kind.value, if |parts| > 1 then TrimSpace(parts[1]) else class_,
                       if |parts| > 2 then TrimSpace(parts[2]) else attribute))
  }

  /** The subject is acceptable for its kind; a DN subject must be non-empty and parse. */
  predicate SubjectAllowed(kind: SubjectKind, subject: string, naming: Naming) {
    (NamesEntry(kind) ==> subject != "" && naming(subject).Some?) &&
    (kind == DnAttribute ==> TrimSpace(subject) != "")
  }

  // ----- whole values -----

  function ScopeOf(word: string): Option<Scope> {
    if word == "entry" then Some(ScopeEntry) else if word == "children" then Some(ScopeChildren)
    else if word == "subtree" then Some(ScopeSubtree) else None
  }

  /** Everything Parse reads, before it looks at the subject. */
  function Fields(raw: string): Option<Value> {
    var parts := SplitN(raw, '#', 5);
    if |parts| != 5 || !IsNumericOID(TrimSpace(parts[0])) then None
    else
      match (ScopeOf(ToLower(TrimSpace(parts[1]))), PermissionsOf(parts[2]), SubjectTypeOf(parts[3]))
      case (Some(scope), Some(permissions), Some(subjectType)) =>
        Some(Value(TrimSpace(parts[0]), scope, permissions, subjectType, parts[4]))
      case _ => None
  }

  function Parse(raw: string, naming: Naming): Option<Value> {
    match Fields(raw)
    case None => None
    case Some(value) => if SubjectAllowed(value.subjectType.kind, value.subject, naming) then Some(value) else None
  }

  /** The method form of Parse, through the loops above. */
  method ParseValue(raw: string, naming: Naming) returns (result: Option<Value>)
    ensures result == Parse(raw, naming)
  {
    var parts := SplitN(raw, '#', 5);
    if |parts| != 5 { return None; }
    var oid := TrimSpace(parts[0]);
    var valid := ValidNumericOID(oid);
    if !valid { return None; }
    var scope := ScopeOf(ToLower(TrimSpace(parts[1])));
    if scope.None? { return None; }
    var permissions := ParsePermissions(parts[2]);
    if permissions.None? { return None; }
    var subjectType := SubjectTypeOf(parts[3]);
    if subjectType.None? || !SubjectAllowed(subjectType.value.kind, parts[4], naming) { return None; }
    return Some(Value(oid, scope.value, permissions.value, subjectType.value, parts[4]));
  }
}
