/** Concrete ACI values, and the one kind of subject that does not survive normalizing twice. */
module AciExamples {
  import opened Text
  import opened AciText
  import opened AciNormal
  import opened AciReadBack
  import opened AciTheorems

  const ReadClause := Clause({ReadRight}, [AllSelector])

  /** grant;r;[all] */
  const ReadPermissions: seq<Permission> := [Permission(true, {ReadRight}, [AllSelector], 0)]

  lemma ReadFlattened()
    ensures Flatten([Action(true, [ReadClause])], 0) == ReadPermissions
  {
    assert Numbered(true, [ReadClause], 0) == ReadPermissions + [];
    assert Flatten([Action(true, [ReadClause])], 0) == Numbered(true, [ReadClause], 0) + [];
  }

  lemma ReadClausePlain()
    ensures PlainClauses([ReadClause])
  {
    assert PlainSelector(AllSelector);
  }

  lemma ReadPermissionsPlain()
    ensures PlainPermissions(ReadPermissions)
  {
    ReadFlattened();
    ReadClausePlain();
    hide Flatten, PlainClauses;
    assert PlainActions([Action(true, [ReadClause])]);
  }

  /** 1#entry#grant;r;[all]#kind#subject: everyone meant by the subject may read every attribute. */
  function ReadValue(kind: SubjectKind, subject: string): Value {
    Value("1", ScopeEntry, ReadPermissions, SubjectType(kind, "", ""), subject)
  }

  lemma ReadValuePlain(kind: SubjectKind, subject: string)
    requires !IsGroup(kind)
    ensures Plain(ReadValue(kind, subject))
  {
    ReadPermissionsPlain();
    hide PlainPermissions;
    assert IsNumericOID("1");
  }

  lemma ReadValueParses(kind: SubjectKind, subject: string, naming: Naming)
    requires !IsGroup(kind)
    ensures Parse(Render(ReadValue(kind, subject)), naming) ==
            if SubjectAllowed(kind, subject, naming) then Some(ReadValue(kind, subject)) else None
  {
    hide Plain, Render, Fields, SubjectAllowed;
    ReadValuePlain(kind, subject);
    RenderedReadsBack(ReadValue(kind, subject));
  }

  // ----- the empty DN as a subject -----

  /** A single blank names the empty DN, whose key is empty; nothing else is a DN here. */
  function BlankNaming(text: string): Option<string> { if text == " " then Some("") else None }

  lemma ReadValueCanonical(naming: Naming)
    requires naming(" ") == Some("")
    ensures Canonical(ReadValue(AccessId, " "), naming) == ReadValue(AccessId, "")
  {
    assert ToLower("") == "";
    var selectors := CanonicalSelectors([AllSelector]);
    assert selectors == [AllSelector] by { assert selectors[0] == AllSelector.(name := ToLower("")); }
    hide CanonicalSelectors, ToLower;
    var permissions := CanonicalPermissions(ReadPermissions);
    assert permissions == ReadPermissions by {
      assert permissions[0] == ReadPermissions[0].(attributes := selectors);
    }
    hide CanonicalPermissions;
  }

  lemma ReadClauseText()
    ensures ClauseText({ReadRight}, [AllSelector]) == ";r;[all]"
  {
    RightsOfRead();
    assert SelectorTexts([AllSelector]) == ["[all]"];
    assert SelectorsText([AllSelector]) == "[all]";
    hide RightsText, SelectorsText;
  }

  lemma ReadPermissionsText()
    ensures PermissionsText(ReadPermissions, None) == "grant;r;[all]"
  {
    ReadClauseText();
    hide ClauseText;
    var p := ReadPermissions[0];
    assert ReadPermissions[1..] == [] && PermissionsText([], Some(0)) == "";
    assert Opening(p, None) == "" + "grant" == "grant";
    assert PermissionsText(ReadPermissions, None) == "grant" + (";r;[all]" + "");
  }

  lemma FieldsJoined()
    ensures "1" + "#" + ("entry" + "#" + ("grant;r;[all]" + "#" + ("access-id" + "#" + " "))) ==
            "1#entry#grant;r;[all]#access-id# "
  {
  }

  lemma BlankText()
    ensures Render(ReadValue(AccessId, " ")) == "1#entry#grant;r;[all]#access-id# "
  {
    ReadPermissionsText();
    FieldsJoined();
    hide PermissionsText;
  }

  lemma RightsOfRead()
    ensures RightsText({ReadRight}) == "r"
  {
    var rights := {ReadRight};
    var order := RightOrder;
    assert Letters(rights, order[6..]) == [];
    assert order[5..][1..] == order[6..] && Letters(rights, order[5..]) == [];
    assert order[4..][1..] == order[5..] && Letters(rights, order[4..]) == ["r"];
    assert order[3..][1..] == order[4..] && Letters(rights, order[3..]) == ["r"];
    assert order[2..][1..] == order[3..] && Letters(rights, order[2..]) == ["r"];
    assert order[1..][1..] == order[2..] && Letters(rights, order[1..]) == ["r"];
    assert order[0..] == order && Letters(rights, order) == ["r"];
  }

  /** A blank access-id subject is accepted and normalized, and its normal form is refused. */
  lemma BlankSubjectIsNotNormalTwice()
    ensures var raw := "1#entry#grant;r;[all]#access-id# ";
            KeysReparse(BlankNaming) && Parse(raw, BlankNaming).Some? && NormalText(raw, BlankNaming).Some? &&
            NormalText(NormalText(raw, BlankNaming).value, BlankNaming) == None
  {
    BlankText();
    ReadValueParses(AccessId, " ", BlankNaming);
    ReadValueParses(AccessId, "", BlankNaming);
    ReadValueCanonical(BlankNaming);
    hide Parse, Render, Canonical, ReadValue;
  }
}
