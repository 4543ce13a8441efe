/** What Normalize prints, Parse reads back: the canonical form of the value. */
module AciReadBack {
  import opened Text
  import opened AciText
  import opened AciNormal

  /** Free of the characters that structure the permission field. */
  predicate Clean(s: string) { Without(s, '#') && Without(s, '$') && Without(s, ';') && Without(s, ',') }

  lemma CleanTrim(s: string)
    requires Clean(s)
    ensures Clean(TrimSpace(s))
  {
    TrimKeepsOut(s, '#');
    TrimKeepsOut(s, '$');
    TrimKeepsOut(s, ';');
    TrimKeepsOut(s, ',');
  }

  // ----- attribute selectors -----

  predicate BracketWord(s: string) { s == "[all]" || s == "[entry]" || s == "[children]" }

  predicate PlainName(name: string) {
    name != "" && Trimmed(name) && Clean(name) && Without(name, '=')
  }

  /** A selector the parser can produce. */
  predicate PlainSelector(s: AttributeSelector) {
    s == AllSelector ||
    (!s.all && PlainName(s.name) &&
     (if s.hasValue then
        Clean(s.value) && Without(s.value, '*') && (s.value != "" ==> !IsSpace(s.value[0])) &&
        (!s.prefix ==> Trimmed(s.value))
      else s.value == "" && !s.prefix && !BracketWord(ToLower(s.name))))
  }

  lemma CleanSlice(s: string, i: nat, j: nat)
    requires i <= j <= |s| && Clean(s)
    ensures Clean(s[i..j])
  {
  }

  lemma ValueParsed(name: string, text: string)
    requires Clean(text) && Trimmed(text) && PlainName(name)
    ensures PlainSelector(ValueSelector(name, text))
  {
    hide Clean, Trimmed, PlainName;
    var wildcard := IndexOf(text, '*');
    CleanSlice(text, 0, wildcard);
    assert text[0..wildcard] == text[..wildcard];
    if text != "" { assert !IsSpace(text[0]) by { TrimmedStart(text); } }
    hide IndexOf, IsSpace;
  }

  lemma TrimmedStart(s: string)
    requires Trimmed(s) && s != ""
    ensures !IsSpace(s[0])
  {
  }

  lemma NameParsed(part: string, separator: nat)
    requires separator <= |part| && Clean(part) && Without(part[..separator], '=') && TrimSpace(part[..separator]) != ""
    ensures PlainName(TrimSpace(part[..separator]))
  {
    CleanSlice(part, 0, separator);
    assert part[0..separator] == part[..separator];
    CleanTrim(part[..separator]);
    TrimKeepsOut(part[..separator], '=');
    hide TrimSpace, Clean;
  }

  lemma SelectorShape(raw: string, part: string, separator: nat)
    requires SelectorOf(raw).Some? && part == TrimSpace(raw) && separator == IndexOf(part, '=')
    requires !BracketWord(ToLower(part))
    ensures part != ""
    ensures separator == |part| ==> SelectorOf(raw).value == AttributeSelector(part, "", false, false, false)
    ensures separator < |part| ==>
              var name := TrimSpace(part[..separator]);
              name != "" && SelectorOf(raw).value == ValueSelector(name, TrimSpace(part[separator + 1..]))
  {
    hide TrimSpace, IndexOf, ToLower, ValueSelector;
  }

  lemma PairParsed(part: string, separator: nat)
    requires Clean(part) && separator < |part| && Without(part[..separator], '=') && TrimSpace(part[..separator]) != ""
    ensures PlainSelector(ValueSelector(TrimSpace(part[..separator]), TrimSpace(part[separator + 1..])))
  {
    var rest := part[separator + 1..];
    CleanSlice(part, separator + 1, |part|);
    CleanTrim(rest);
    NameParsed(part, separator);
    TrimSpaceTrimmed(rest);
    hide TrimSpace, Clean, Trimmed, PlainName, PlainSelector, ValueSelector, Without;
    ValueParsed(TrimSpace(part[..separator]), TrimSpace(rest));
  }

  lemma SelectorParsed(raw: string)
    requires Clean(raw) && SelectorOf(raw).Some?
    ensures PlainSelector(SelectorOf(raw).value)
  {
    CleanTrim(raw);
    var part := TrimSpace(raw);
    var separator := IndexOf(part, '=');
    hide SelectorOf, IndexOf, TrimSpace, ToLower;
    assert Trimmed(part) && Without(part[..separator], '=');
    hide Without, Trimmed, PlainSelector, BracketWord, Clean, PlainName;
    if BracketWord(ToLower(part)) {
      BracketParsed(raw);
      return;
    }
    SelectorShape(raw, part, separator);
    if separator < |part| {
      PairParsed(part, separator);
    } else {
      assert part[..separator] == part;
      NamePlain(part);
      BareNamePlain(part);
    }
  }

  lemma TrimSpaceTrimmed(s: string)
    ensures Trimmed(TrimSpace(s))
  {
    hide TrimSpace;
  }

  lemma NamePlain(part: string)
    requires part != "" && Trimmed(part) && Clean(part) && Without(part, '=')
    ensures PlainName(part)
  {
  }

  lemma WordPlain(word: string)
    requires word == "entry" || word == "children"
    ensures PlainName(word) && !BracketWord(ToLower(word))
  {
    assert ToLower(word)[0] == word[0] != '[';
  }

  lemma BracketParsed(raw: string)
    requires BracketWord(ToLower(TrimSpace(raw)))
    ensures SelectorOf(raw).Some? && PlainSelector(SelectorOf(raw).value)
  {
    hide TrimSpace, ToLower, PlainName, IndexOf, PlainSelector;
    var s := SelectorOf(raw).value;
    assert s == AllSelector || s == AttributeSelector("entry", "", false, false, false) ||
           s == AttributeSelector("children", "", false, false, false);
    hide SelectorOf;
    WordPlain("entry");
    WordPlain("children");
    hide BracketWord;
    BareNamePlain("entry");
    BareNamePlain("children");
    AllPlain();
  }

  lemma AllPlain()
    ensures PlainSelector(AllSelector)
  {
  }

  lemma BareNamePlain(name: string)
    requires PlainName(name) && !BracketWord(ToLower(name))
    ensures PlainSelector(AttributeSelector(name, "", false, false, false))
  {
  }

  lemma ValueRead(name: string, value: string, prefix: bool)
    requires Without(value, '*') && (value != "" ==> !IsSpace(value[0])) && (!prefix ==> Trimmed(value))
    ensures ValueSelector(name, TrimSpace(value + if prefix then "*" else "")) ==
            AttributeSelector(name, value, false, true, prefix)
  {
    var text := value + if prefix then "*" else "";
    if prefix {
      assert text[|text| - 1] == '*';
      TrimSpaceKeeps(text);
      IndexOfFirst(value, '*', "");
      assert value + ['*'] + "" == text;
    } else {
      assert text == value;
      TrimSpaceKeeps(text);
    }
  }

  lemma SelectorRead(s: AttributeSelector)
    requires PlainSelector(s)
    ensures SelectorOf(SelectorText(s)) == Some(s)
  {
    var text := SelectorText(s);
    if s == AllSelector {
      TrimSpaceKeeps(text);
    } else if !s.hasValue {
      assert text == s.name;
      TrimSpaceKeeps(text);
    } else {
      SelectorWithValueRead(s);
    }
  }

  lemma BracketHasNoEquals(text: string, i: nat)
    requires i < |text| && text[i] == '='
    ensures !BracketWord(ToLower(text))
  {
    assert ToLower(text)[i] == '=';
  }

  lemma PairTrimmed(name: string, value: string)
    requires PlainName(name) && (value != "" ==> !IsSpace(value[|value| - 1]))
    ensures Trimmed(name + ['='] + value)
  {
    var text := name + ['='] + value;
    assert text[0] == name[0] && text[|name|] == '=';
    if value != "" { assert text[|text| - 1] == value[|value| - 1]; }
  }

  function ValueText(s: AttributeSelector): string { s.value + if s.prefix then "*" else "" }

  lemma PairText(s: AttributeSelector)
    requires s.hasValue && !s.all
    ensures SelectorText(s) == s.name + ['='] + ValueText(s)
  {
    assert "=" + s.value + (if s.prefix then "*" else "") == ['='] + ValueText(s);
    assert s.name + (['='] + ValueText(s)) == s.name + ['='] + ValueText(s);
  }

  lemma SelectorOfPair(part: string, name: string, value: string)
    requires part == name + ['='] + value && TrimSpace(part) == part && TrimSpace(name) == name && name != ""
    requires !BracketWord(ToLower(part)) && IndexOf(part, '=') == |name|
    ensures SelectorOf(part) == Some(ValueSelector(name, TrimSpace(value)))
  {
    hide TrimSpace, IndexOf, ValueSelector, ToLower;
    assert part[..|name|] == name && part[|name| + 1..] == value;
  }

  lemma SelectorWithValueRead(s: AttributeSelector)
    requires PlainSelector(s) && s.hasValue
    ensures SelectorOf(SelectorText(s)) == Some(s)
  {
    hide SelectorOf, TrimSpace, IndexOf, ValueSelector, ToLower, SelectorText, Clean, BracketWord;
    ValueRead(s.name, s.value, s.prefix);
    var value := ValueText(s);
    var text := s.name + ['='] + value;
    PairText(s);
    assert value != "" ==> !IsSpace(value[|value| - 1]);
    PairTrimmed(s.name, value);
    hide IsSpace, Without;
    TrimSpaceKeeps(text);
    TrimSpaceKeeps(s.name);
    IndexOfFirst(s.name, '=', value);
    BracketHasNoEquals(text, |s.name|);
    SelectorOfPair(text, s.name, value);
  }

  lemma SelectorClean(s: AttributeSelector)
    requires PlainSelector(s)
    ensures Clean(SelectorText(s))
  {
  }

  lemma SelectorCanonical(s: AttributeSelector)
    requires PlainSelector(s)
    ensures PlainSelector(s.(name := ToLower(s.name)))
  {
    LowerTwice(s.name);
  }

  predicate PlainSelectors(selectors: seq<AttributeSelector>) {
    selectors != [] && forall i :: 0 <= i < |selectors| ==> PlainSelector(selectors[i])
  }

  lemma {:induction false} SelectorTextsRead(selectors: seq<AttributeSelector>)
    requires forall i :: 0 <= i < |selectors| ==> PlainSelector(selectors[i])
    ensures SelectorsIn(SelectorTexts(selectors)) == Some(selectors)
  {
    if selectors != [] {
      SelectorRead(selectors[0]);
      SelectorTextsRead(selectors[1..]);
      hide SelectorOf, SelectorText, PlainSelector;
      assert SelectorTexts(selectors)[1..] == SelectorTexts(selectors[1..]);
      assert [selectors[0]] + selectors[1..] == selectors;
    }
  }

  lemma SelectorsRead(selectors: seq<AttributeSelector>)
    requires PlainSelectors(selectors)
    ensures SelectorsOf(SelectorsText(selectors)) == Some(selectors)
  {
    var texts := SelectorTexts(selectors);
    forall i | 0 <= i < |texts| ensures Without(texts[i], ',') { SelectorClean(selectors[i]); }
    SelectorTextsRead(selectors);
    hide PlainSelector, SelectorText, Without, Join, Split, SelectorsIn;
    SplitJoin(texts, ',');
  }

  lemma SelectorsPlain(selectors: seq<AttributeSelector>, c: char)
    requires PlainSelectors(selectors) && c in ['#', '$', ';']
    ensures Without(SelectorsText(selectors), c)
  {
    var texts := SelectorTexts(selectors);
    forall i | 0 <= i < |texts| ensures Without(texts[i], c) { SelectorClean(selectors[i]); }
    hide PlainSelector, SelectorText, Without, Join;
    JoinWithout(texts, ',', c);
  }

  lemma {:induction false} SelectorsParsedIn(parts: seq<string>)
    requires SelectorsIn(parts).Some? && forall i :: 0 <= i < |parts| ==> Clean(parts[i])
    ensures |SelectorsIn(parts).value| == |parts|
    ensures forall i :: 0 <= i < |parts| ==> PlainSelector(SelectorsIn(parts).value[i])
  {
    if parts != [] {
      SelectorParsed(parts[0]);
      hide SelectorOf, PlainSelector, Clean;
      SelectorsParsedIn(parts[1..]);
    }
  }

  /** Free of '#' and '$' and ';'. */
  predicate Field(s: string) { Without(s, '#') && Without(s, '$') && Without(s, ';') }

  lemma SelectorsParsed(raw: string)
    requires Field(raw) && SelectorsOf(raw).Some?
    ensures PlainSelectors(SelectorsOf(raw).value)
  {
    SplitKeepsOut(raw, ',', '#');
    SplitKeepsOut(raw, ',', '$');
    SplitKeepsOut(raw, ',', ';');
    assert forall i :: 0 <= i < |Split(raw, ',')| ==> Clean(Split(raw, ',')[i]);
    hide Clean, PlainSelector, Without, Split, SelectorsIn;
    SelectorsParsedIn(Split(raw, ','));
  }

  lemma SelectorsCanonical(selectors: seq<AttributeSelector>)
    requires PlainSelectors(selectors)
    ensures PlainSelectors(CanonicalSelectors(selectors))
  {
    forall i | 0 <= i < |selectors| ensures PlainSelector(CanonicalSelectors(selectors)[i]) {
      SelectorCanonical(selectors[i]);
    }
  }

  // ----- clauses -----

  predicate PlainClauses(clauses: seq<Clause>) {
    forall i :: 0 <= i < |clauses| ==> clauses[i].rights != {} && PlainSelectors(clauses[i].attributes)
  }

  function PieceTexts(clauses: seq<Clause>): (texts: seq<string>)
    ensures |texts| == 2 * |clauses|
  {
    if clauses == [] then []
    else [RightsText(clauses[0].rights), SelectorsText(clauses[0].attributes)] + PieceTexts(clauses[1..])
  }

  lemma PieceTextsStep(clauses: seq<Clause>)
    requires clauses != []
    ensures PieceTexts(clauses)[0] == RightsText(clauses[0].rights)
    ensures PieceTexts(clauses)[1] == SelectorsText(clauses[0].attributes)
    ensures PieceTexts(clauses)[2..] == PieceTexts(clauses[1..])
  {
    hide RightsText, SelectorsText;
    var first, rest := [RightsText(clauses[0].rights), SelectorsText(clauses[0].attributes)], PieceTexts(clauses[1..]);
    assert PieceTexts(clauses) == first + rest;
    assert (first + rest)[2..] == rest;
  }

  lemma {:induction false} PiecesRead(clauses: seq<Clause>)
    requires PlainClauses(clauses)
    ensures ClausesIn(PieceTexts(clauses)) == Some(clauses)
  {
    if clauses != [] {
      RightsReadBack(clauses[0].rights);
      SelectorsRead(clauses[0].attributes);
      hide RightsOf, SelectorsOf, RightsText, SelectorsText, PlainSelectors;
      PiecesRead(clauses[1..]);
      PieceTextsStep(clauses);
      hide PieceTexts;
      ClausesStep(PieceTexts(clauses));
      hide ClausesIn, PlainClauses;
      assert [clauses[0]] + clauses[1..] == clauses;
    }
  }

  lemma {:induction false} PiecesPlain(clauses: seq<Clause>, c: char)
    requires PlainClauses(clauses) && c in ['#', '$', ';']
    ensures forall i :: 0 <= i < |PieceTexts(clauses)| ==> Without(PieceTexts(clauses)[i], c)
  {
    if clauses != [] {
      RightsPlain(clauses[0].rights, c);
      SelectorsPlain(clauses[0].attributes, c);
      PiecesPlain(clauses[1..], c);
      hide RightsText, SelectorsText, PlainSelectors, Without;
    }
  }

  lemma {:induction false} ClausesParsed(pieces: seq<string>)
    requires ClausesIn(pieces).Some? && forall i :: 0 <= i < |pieces| ==> Field(pieces[i])
    ensures PlainClauses(ClausesIn(pieces).value) && |pieces| == 2 * |ClausesIn(pieces).value|
    decreases |pieces|
  {
    if pieces != [] {
      assert |pieces| >= 2;
      RightsParsed(pieces[0]);
      SelectorsParsed(pieces[1]);
      hide RightsOf, SelectorsOf, PlainSelectors, Field;
      ClausesParsed(pieces[2..]);
      ClausesStep(pieces);
      hide ClausesIn;
      var first := Clause(RightsOf(pieces[0]).value, SelectorsOf(pieces[1]).value);
      ClausesPlainStep(first, ClausesIn(pieces[2..]).value);
    }
  }

  lemma ClausesPlainStep(first: Clause, rest: seq<Clause>)
    requires first.rights != {} && PlainSelectors(first.attributes) && PlainClauses(rest)
    ensures PlainClauses([first] + rest)
  {
    hide PlainSelectors;
  }

  lemma RightsParsed(raw: string)
    requires RightsOf(raw).Some?
    ensures RightsOf(raw).value != {}
  {
    hide Split, TrimSpace;
    var parts := Split(raw, ',');
    assert RightsIn(parts).value != {};
  }

  function CanonicalClauses(clauses: seq<Clause>): (r: seq<Clause>)
    ensures |r| == |clauses|
    ensures forall i :: 0 <= i < |r| ==> r[i] == clauses[i].(attributes := CanonicalSelectors(clauses[i].attributes))
  {
    seq(|clauses|, i requires 0 <= i < |clauses| =>
      clauses[i].(attributes := CanonicalSelectors(clauses[i].attributes)))
  }

  lemma ClausesCanonical(clauses: seq<Clause>)
    requires PlainClauses(clauses)
    ensures PlainClauses(CanonicalClauses(clauses))
  {
    forall i | 0 <= i < |clauses| ensures PlainSelectors(CanonicalClauses(clauses)[i].attributes) {
      SelectorsCanonical(clauses[i].attributes);
    }
  }

  // ----- actions -----

  predicate PlainAction(a: Action) { a.clauses != [] && PlainClauses(a.clauses) }

  function ActionText(a: Action): string { Join([ActionWord(a.grant)] + PieceTexts(a.clauses), ';') }

  lemma WordRead(grant: bool)
    ensures ToLower(TrimSpace(ActionWord(grant))) == ActionWord(grant)
    ensures forall c :: !IsAlpha(c) ==> Without(ActionWord(grant), c)
  {
    TrimSpaceKeeps(ActionWord(grant));
  }

  lemma ActionOfParts(raw: string, parts: seq<string>, grant: bool, clauses: seq<Clause>)
    requires Split(raw, ';') == parts && |parts| >= 3 && |parts| % 2 == 1
    requires ToLower(TrimSpace(parts[0])) == ActionWord(grant) && ClausesIn(parts[1..]) == Some(clauses)
    ensures ActionOf(raw) == Some(Action(grant, clauses))
  {
    hide Split, TrimSpace, ToLower, ClausesIn;
  }

  lemma ActionRead(a: Action)
    requires PlainAction(a)
    ensures ActionOf(ActionText(a)) == Some(a)
  {
    hide ActionOf, PieceTexts, ActionWord, TrimSpace, ToLower, Join, Split, ClausesIn, PlainClauses, IsAlpha, Without;
    var pieces := PieceTexts(a.clauses);
    var parts := [ActionWord(a.grant)] + pieces;
    WordRead(a.grant);
    PiecesPlain(a.clauses, ';');
    PiecesRead(a.clauses);
    SplitJoin(parts, ';') by { SemicolonIsNoLetter(); }
    assert parts[1..] == pieces;
    Odd(|a.clauses|);
    ActionOfParts(ActionText(a), parts, a.grant, a.clauses);
  }

  lemma SemicolonIsNoLetter()
    ensures !IsAlpha(';')
  {
  }

  lemma Odd(n: nat)
    ensures (1 + 2 * n) % 2 == 1
  {
  }

  lemma ActionPlain(a: Action, c: char)
    requires PlainAction(a) && c in ['#', '$']
    ensures Without(ActionText(a), c)
  {
    WordRead(a.grant);
    PiecesPlain(a.clauses, c);
    hide PieceTexts, ActionWord, Join, PlainClauses;
    JoinWithout([ActionWord(a.grant)] + PieceTexts(a.clauses), ';', c);
  }

  lemma ActionParsed(raw: string)
    requires Without(raw, '#') && Without(raw, '$') && ActionOf(raw).Some?
    ensures PlainAction(ActionOf(raw).value)
  {
    var parts := Split(raw, ';');
    SplitKeepsOut(raw, ';', '#');
    SplitKeepsOut(raw, ';', '$');
    hide Without, Split, ClausesIn, TrimSpace, ToLower, PlainClauses;
    ClausesParsed(parts[1..]);
  }

  // ----- the permission field -----

  predicate PlainActions(actions: seq<Action>) { forall i :: 0 <= i < |actions| ==> PlainAction(actions[i]) }

  function ActionTexts(actions: seq<Action>): (texts: seq<string>)
    ensures |texts| == |actions|
    ensures forall i :: 0 <= i < |texts| ==> texts[i] == ActionText(actions[i])
  {
    if actions == [] then [] else [ActionText(actions[0])] + ActionTexts(actions[1..])
  }

  lemma ActionsInCons(text: string, texts: seq<string>, action: Action, actions: seq<Action>)
    requires ActionOf(text) == Some(action) && ActionsIn(texts) == Some(actions)
    ensures ActionsIn([text] + texts) == Some([action] + actions)
  {
    hide ActionOf;
    assert ([text] + texts)[1..] == texts;
  }

  lemma ActionTextsCons(action: Action, actions: seq<Action>)
    ensures ActionTexts([action] + actions) == [ActionText(action)] + ActionTexts(actions)
  {
    hide ActionText;
    assert ([action] + actions)[1..] == actions;
  }

  lemma PlainActionsCons(actions: seq<Action>)
    requires PlainActions(actions) && actions != []
    ensures PlainAction(actions[0]) && PlainActions(actions[1..])
  {
    hide PlainAction;
  }

  lemma {:induction false} ActionTextsRead(actions: seq<Action>)
    requires PlainActions(actions)
    ensures ActionsIn(ActionTexts(actions)) == Some(actions)
  {
    if actions != [] {
      hide ActionOf, ActionText, ActionTexts, PlainAction, PlainActions, ActionsIn;
      var action, rest := actions[0], actions[1..];
      assert [action] + rest == actions;
      PlainActionsCons(actions);
      ActionRead(action);
      ActionTextsRead(rest);
      ActionsInCons(ActionText(action), ActionTexts(rest), action, rest);
      ActionTextsCons(action, rest);
    }
  }

  /** The permission field as one text. */
  function FieldText(actions: seq<Action>): string { Join(ActionTexts(actions), '$') }

  lemma FieldRead(actions: seq<Action>)
    requires actions != [] && PlainActions(actions)
    ensures PermissionsOf(FieldText(actions)) == Some(Flatten(actions, 0))
  {
    var texts := ActionTexts(actions);
    forall i | 0 <= i < |texts| ensures Without(texts[i], '$') { ActionPlain(actions[i], '$'); }
    ActionTextsRead(actions);
    hide PlainAction, ActionText, Without, Join, Split, ActionsIn, Flatten;
    SplitJoin(texts, '$');
  }

  lemma FieldPlain(actions: seq<Action>)
    requires PlainActions(actions)
    ensures Without(FieldText(actions), '#')
  {
    var texts := ActionTexts(actions);
    forall i | 0 <= i < |texts| ensures Without(texts[i], '#') { ActionPlain(actions[i], '#'); }
    hide PlainAction, ActionText, Without, Join;
    JoinWithout(texts, '$', '#');
  }

  lemma {:induction false} ActionsParsedIn(texts: seq<string>)
    requires ActionsIn(texts).Some?
    requires forall i :: 0 <= i < |texts| ==> Without(texts[i], '#') && Without(texts[i], '$')
    ensures PlainActions(ActionsIn(texts).value) && |ActionsIn(texts).value| == |texts|
  {
    if texts != [] {
      ActionParsed(texts[0]);
      hide ActionOf, PlainAction, Without;
      ActionsParsedIn(texts[1..]);
    }
  }

  /** The text of clauses within an action already opened. */
  function ClausesText(clauses: seq<Clause>): string {
    if clauses == [] then ""
    else ClauseText(clauses[0].rights, clauses[0].attributes) + ClausesText(clauses[1..])
  }

  lemma Regroup4(head: string, r: string, s: string, rest: string)
    ensures head + [';'] + (r + [';'] + (s + rest)) == head + (";" + r + (";" + s) + rest)
  {
  }

  lemma JoinPair(head: string, r: string, s: string, rest: seq<string>)
    ensures Join([head, r, s] + rest, ';') == head + [';'] + (r + [';'] + Join([s] + rest, ';'))
  {
    assert ([head, r, s] + rest)[1..] == [r, s] + rest && ([r, s] + rest)[1..] == [s] + rest;
  }

  lemma {:induction false} ClausesJoin(head: string, clauses: seq<Clause>)
    ensures Join([head] + PieceTexts(clauses), ';') == head + ClausesText(clauses)
    decreases |clauses|
  {
    if clauses == [] {
      assert [head] + PieceTexts(clauses) == [head] && head + "" == head;
    } else {
      var r, s := RightsText(clauses[0].rights), SelectorsText(clauses[0].attributes);
      var rest := PieceTexts(clauses[1..]);
      PieceTextsStep(clauses);
      assert ClausesText(clauses) == ";" + r + (";" + s) + ClausesText(clauses[1..]);
      hide RightsText, SelectorsText, PieceTexts, ClausesText, ClauseText, Join;
      assert [head] + PieceTexts(clauses) == [head, r, s] + rest;
      JoinPair(head, r, s, rest);
      ClausesJoin(s, clauses[1..]);
      Regroup4(head, r, s, ClausesText(clauses[1..]));
    }
  }

  lemma NothingAdds(a: string)
    ensures "" + a == a && a + "" == a
  {
  }

  lemma ClausesTextStep(clauses: seq<Clause>)
    requires clauses != []
    ensures ClausesText(clauses) == ClauseText(clauses[0].rights, clauses[0].attributes) + ClausesText(clauses[1..])
  {
  }

  lemma NumberedStep(grant: bool, clauses: seq<Clause>, k: nat, rest: seq<Permission>)
    requires clauses != []
    ensures Numbered(grant, clauses, k) + rest ==
            [Permission(grant, clauses[0].rights, clauses[0].attributes, k)] + (Numbered(grant, clauses[1..], k) + rest)
  {
  }

  lemma PermissionsTextStep(p: Permission, rest: seq<Permission>, previous: Option<nat>)
    ensures PermissionsText([p] + rest, previous) ==
            Opening(p, previous) + (ClauseText(p.rights, p.attributes) + PermissionsText(rest, Some(p.action)))
  {
    hide Opening, ClauseText;
    assert ([p] + rest)[1..] == rest;
  }

  lemma FirstPrinted(grant: bool, clauses: seq<Clause>, k: nat, rest: seq<Permission>, previous: Option<nat>)
    requires clauses != []
    ensures PermissionsText(Numbered(grant, clauses, k) + rest, previous) ==
            Opening(Permission(grant, clauses[0].rights, clauses[0].attributes, k), previous) +
            (ClauseText(clauses[0].rights, clauses[0].attributes) +
             PermissionsText(Numbered(grant, clauses[1..], k) + rest, Some(k)))
  {
    hide ClauseText, Opening, PermissionsText, Numbered;
    NumberedStep(grant, clauses, k, rest);
    PermissionsTextStep(Permission(grant, clauses[0].rights, clauses[0].attributes, k),
                        Numbered(grant, clauses[1..], k) + rest, previous);
  }

  lemma {:induction false} ClausesPrinted(grant: bool, clauses: seq<Clause>, k: nat, rest: seq<Permission>)
    ensures PermissionsText(Numbered(grant, clauses, k) + rest, Some(k)) ==
            ClausesText(clauses) + PermissionsText(rest, Some(k))
    decreases |clauses|
  {
    if clauses == [] {
      assert Numbered(grant, clauses, k) + rest == rest;
      NothingAdds(PermissionsText(rest, Some(k)));
    } else {
      var p := Permission(grant, clauses[0].rights, clauses[0].attributes, k);
      assert Opening(p, Some(k)) == "";
      hide PermissionsText, Numbered, ClauseText, ClausesText, Opening;
      ClausesPrinted(grant, clauses[1..], k, rest);
      FirstPrinted(grant, clauses, k, rest, Some(k));
      ClausesTextStep(clauses);
      var a, b, c := ClauseText(p.rights, p.attributes), ClausesText(clauses[1..]), PermissionsText(rest, Some(k));
      NothingAdds(a + (b + c));
      Associates(a, b, c);
    }
  }

  function Separator(previous: Option<nat>): string { if previous.Some? then "$" else "" }

  lemma RegroupAction(s: string, w: string, x: string, y: string, z: string)
    ensures s + w + (x + (y + z)) == s + (w + (x + y)) + z
  {
  }

  lemma ActionTextSteps(a: Action)
    requires a.clauses != []
    ensures ActionText(a) == ActionWord(a.grant) + (ClauseText(a.clauses[0].rights, a.clauses[0].attributes) +
                                                    ClausesText(a.clauses[1..]))
  {
    hide ActionWord, ClauseText, ClausesText, PieceTexts, Join;
    ClausesJoin(ActionWord(a.grant), a.clauses);
    ClausesTextStep(a.clauses);
  }

  lemma ActionPrinted(a: Action, k: nat, rest: seq<Permission>, previous: Option<nat>)
    requires a.clauses != [] && previous != Some(k)
    ensures PermissionsText(Numbered(a.grant, a.clauses, k) + rest, previous) ==
            Separator(previous) + ActionText(a) + PermissionsText(rest, Some(k))
  {
    var first := a.clauses[0];
    assert Opening(Permission(a.grant, first.rights, first.attributes, k), previous) ==
           Separator(previous) + ActionWord(a.grant);
    hide PermissionsText, Numbered, ClauseText, ClausesText, ActionWord, ActionText, Opening, Separator;
    FirstPrinted(a.grant, a.clauses, k, rest, previous);
    ClausesPrinted(a.grant, a.clauses[1..], k, rest);
    ActionTextSteps(a);
    RegroupAction(Separator(previous), ActionWord(a.grant), ClauseText(first.rights, first.attributes),
                  ClausesText(a.clauses[1..]), PermissionsText(rest, Some(k)));
  }

  lemma RegroupJoin(s: string, t: string, u: string)
    ensures s + t + ("$" + u) == s + (t + ['$'] + u)
  {
  }

  lemma FlattenStep(actions: seq<Action>, k: nat)
    requires actions != []
    ensures Flatten(actions, k) == Numbered(actions[0].grant, actions[0].clauses, k) + Flatten(actions[1..], k + 1)
  {
  }

  /** The flat list with its action numbers prints as the actions joined by '$'. */
  lemma {:induction false} ActionsPrinted(actions: seq<Action>, k: nat, previous: Option<nat>)
    requires PlainActions(actions) && (previous.Some? ==> previous.value < k)
    ensures PermissionsText(Flatten(actions, k), previous) ==
            if actions == [] then "" else Separator(previous) + FieldText(actions)
    decreases |actions|
  {
    if actions != [] {
      var rest := actions[1..];
      assert PlainActions(rest) && PlainAction(actions[0]);
      hide PermissionsText, Flatten, Numbered, ActionText, FieldText, PlainClauses;
      ActionsPrinted(rest, k + 1, Some(k));
      ActionPrinted(actions[0], k, Flatten(rest, k + 1), previous);
      FlattenStep(actions, k);
      FieldStep(actions);
      assert Separator(Some(k)) == "$";
      hide Separator, PlainActions, PlainAction;
      var s, t := Separator(previous), ActionText(actions[0]);
      if rest == [] {
        NothingAdds(s + t);
      } else {
        RegroupJoin(s, t, FieldText(rest));
      }
    }
  }

  lemma FieldStep(actions: seq<Action>)
    requires actions != []
    ensures FieldText(actions) == if |actions| == 1 then ActionText(actions[0])
                                  else ActionText(actions[0]) + ['$'] + FieldText(actions[1..])
  {
    hide ActionText;
    assert ActionTexts(actions)[1..] == ActionTexts(actions[1..]);
  }
}
