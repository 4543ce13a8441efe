/** A printed failure file, read back, yields the operations and controls it was printed from. */
module LdifRoundTrip {
  import opened Text
  import opened LdifLines
  import opened LdifFolding
  import opened LdifRecords
  import opened LdifParse
  import Base64

  // ----- what can be written -----

  predicate WritableControl(control: Control) {
    ValidOID(control.oid) &&
    (control.value.Some? ==> Base64.IsBytes(control.value.value) && |Base64.Encode(control.value.value)| <= MAX_CONTROL_TEXT)
  }

  predicate BytesIn(request: Request) {
    match request
    case Modify(changes) =>
      forall i, j :: 0 <= i < |changes| && 0 <= j < |changes[i].values| ==> Base64.IsBytes(changes[i].values[j])
    case ModifyDN(newRDN, _, newSuperior) => Base64.IsBytes(newRDN) && Base64.IsBytes(newSuperior)
  }

  /** An operation the commands accept, with byte strings for values and controls within the size limit. */
  predicate Writable(names: Names, op: Operation) {
    ValidOperation(names, op.dn, op.request) && Base64.IsBytes(op.dn) && BytesIn(op.request) &&
    forall i :: 0 <= i < |op.controls| ==> WritableControl(op.controls[i])
  }

  // ----- names -----

  predicate NameChar(c: char) { IsAlpha(c) || IsDigit(c) || c == '-' || c == '.' || c == ';' }

  predicate NameChars(s: string) { forall i :: 0 <= i < |s| ==> NameChar(s[i]) }

  lemma {:induction false} NumericChars(s: string, expectDigit: bool)
    requires NumericOID(s, expectDigit)
    ensures NameChars(s) && (expectDigit ==> s != "" && IsDigit(s[0]))
  {
    if s != "" { NumericChars(s[1..], !IsDigit(s[0])); }
  }

  lemma {:induction false} OptionChars(s: string)
    requires ValidOptions(s)
    ensures NameChars(s) && s != ""
    decreases |s|
  {
    var end := IndexOf(s, ';');
    if end < |s| {
      OptionChars(s[end + 1..]);
      assert s == s[..end] + [s[end]] + s[end + 1..];
    } else {
      assert s[..end] == s;
    }
  }

  lemma DescriptionChars(s: string)
    requires ValidDescription(s)
    ensures NameChars(s) && s != "" && (IsAlpha(s[0]) || IsDigit(s[0]))
  {
    var end := IndexOf(s, ';');
    if !KeyString(s[..end]) { NumericChars(s[..end], true); }
    assert NameChars(s[..end]);
    if end < |s| {
      OptionChars(s[end + 1..]);
      assert s == s[..end] + [s[end]] + s[end + 1..];
    } else {
      assert s[..end] == s;
    }
  }

  lemma KeywordsAreDescriptions()
    ensures ValidDescription("dn") && ValidDescription("control") && ValidDescription("changetype")
    ensures ValidDescription("add") && ValidDescription("delete") && ValidDescription("replace")
    ensures ValidDescription("increment") && ValidDescription("newrdn") && ValidDescription("deleteoldrdn")
    ensures ValidDescription("newsuperior")
  {
    hide *;
    PlainDescription("dn");
    PlainDescription("control");
    PlainDescription("changetype");
    PlainDescription("add");
    PlainDescription("delete");
    PlainDescription("replace");
    PlainDescription("increment");
    PlainDescription("newrdn");
    PlainDescription("deleteoldrdn");
    PlainDescription("newsuperior");
  }

  lemma PlainDescription(s: string)
    requires s != "" && forall i :: 0 <= i < |s| ==> 'a' <= s[i] <= 'z'
    ensures ValidDescription(s)
  {
    hide NumericOID, ValidOptions;
    var end := IndexOf(s, ';');
    assert end == |s| && s[..end] == s;
  }

  // ----- value lines -----

  lemma EncodedText(value: string)
    requires value != "" && Base64.IsBytes(value)
    ensures var text := Base64.Encode(value);
            text != "" && Printable(text) && text[0] != ' ' && text[|text| - 1] != ' ' &&
            TrimLeftBlank(" " + text) == text && Base64.Decode(text, false) == Some(value)
  {
    var text := Base64.Encode(value);
    Base64.RoundTrip(value, false);
    AlphabetPrintable(text);
    Base64.EncodeAlphabet(value);
    assert (" " + text)[1..] == text;
  }

  lemma AlphabetPrintable(text: string)
    ensures Base64.IsAlphabet(text) ==> forall i :: 0 <= i < |text| ==> ' ' < text[i] <= '~'
  {
    if Base64.IsAlphabet(text) {
      forall i | 0 <= i < |text| ensures ' ' < text[i] <= '~' {
        assert text[i] == '=' || Base64.Value(text[i]) < 64;
      }
    }
  }

  /** What follows the name and its colon decides how a value line is read. */
  lemma LineParses(name: string, rest: string)
    requires ValidDescription(name)
    ensures ParseLine(name + ":" + rest) ==
            if rest == "" then Some(ValueLine(name, "", Plain))
            else if rest[0] == ':' then
              match Base64.Decode(TrimLeftBlank(rest[1..]), false)
              case None => None
              case Some(value) => Some(ValueLine(name, value, Encoded))
            else if rest[0] == '<' then Some(ValueLine(name, TrimLeftBlank(rest[1..]), Url))
            else Some(ValueLine(name, TrimLeftBlank(rest), Plain))
  {
    DescriptionChars(name);
    hide ValidDescription, IndexOf, TrimLeftBlank, Base64.Decode;
    var line := name + ":" + rest;
    assert line == name + [':'] + rest;
    IndexOfFirst(name, ':', rest);
    assert line[..|name|] == name && line[|name| + 1..] == rest;
  }

  /** Every value, empty, plain or in base64, is read back from its line, and never as a file reference. */
  lemma AttributeLineParses(name: string, value: string)
    requires ValidDescription(name) && Base64.IsBytes(value)
    ensures ParseLine(AttributeLine(name, value)).Some?
    ensures var line := ParseLine(AttributeLine(name, value)).value;
            line.name == name && line.value == value && !line.mode.Url?
  {
    hide ValidDescription, IndexOf, ParseLine, Base64.Encode, Base64.Decode;
    var rest := if value == "" then ""
                else if RequiresBase64(value) then ": " + Base64.Encode(value) else " " + value;
    LineParses(name, rest);
    if value != "" {
      if RequiresBase64(value) {
        EncodedText(value);
        assert rest[1..] == " " + Base64.Encode(value);
      } else {
        assert rest[1..] == value;
        assert TrimLeftBlank(rest) == value;
      }
    }
  }

  lemma AttributeLineClean(name: string, value: string)
    requires ValidDescription(name) && Base64.IsBytes(value)
    ensures Clean(AttributeLine(name, value)) && AttributeLine(name, value) != "-"
  {
    DescriptionChars(name);
    hide ValidDescription, Base64.Encode, Base64.Decode;
    if value != "" && RequiresBase64(value) { EncodedText(value); }
    var line := AttributeLine(name, value);
    assert line[0] == name[0] && line[|name|] == ':';
  }

  // ----- record controls -----

  predicate OidChar(c: char) { IsDigit(c) || c == '.' }

  lemma {:induction false} ArcChars(s: string)
    requires Arcs(s)
    ensures s != "" && forall i :: 0 <= i < |s| ==> OidChar(s[i])
    decreases |s|
  {
    var end := IndexOf(s, '.');
    if end < |s| {
      ArcChars(s[end + 1..]);
      assert s == s[..end] + [s[end]] + s[end + 1..];
    } else {
      assert s[..end] == s;
    }
  }

  lemma TrimSpaceFront(s: string)
    requires s != "" ==> !IsSpace(s[0]) && !IsSpace(s[|s| - 1])
    ensures TrimSpace(" " + s) == s
  {
    assert (" " + s)[1..] == s;
    assert TrimLeftSpace(" " + s) == TrimLeftSpace(s);
  }

  lemma TrimSpaceBack(s: string)
    requires s != "" && !IsSpace(s[0]) && !IsSpace(s[|s| - 1])
    ensures TrimSpace(s + " ") == s
  {
    assert (s + " ")[..|s|] == s;
    assert TrimLeftSpace(s + " ") == s + " ";
    assert TrimRightSpace(s + " ") == TrimRightSpace(s);
  }

  /** ControlTail after its surrounding white space was trimmed. */
  function TrimmedTail(control: Control): string {
    match control.value
    case None => ""
    case Some(v) => if v == "" then "::" else ":: " + Base64.Encode(v)
  }

  lemma TrimTail(front: string, control: Control)
    requires WritableControl(control) && front != "" && !IsSpace(front[0]) && !IsSpace(front[|front| - 1])
    ensures TrimSpace(front + ControlTail(control)) == front + TrimmedTail(control)
  {
    hide ValidOID, Base64.Encode, TrimSpace;
    match control.value
    case None =>
      TrimSpaceKeeps(front + "");
    case Some(v) =>
      if v == "" {
        assert Base64.Encode("") == "" by { EmptyText(); }
        assert front + (":: " + "") == front + "::" + " ";
        TrimSpaceBack(front + "::");
      } else {
        EncodedText(v);
        NoSpaceAtEnd(v);
        TrimSpaceKeeps(front + (":: " + Base64.Encode(v)));
      }
  }

  lemma EmptyText()
    ensures Base64.Encode("") == ""
  {
  }

  lemma NoSpaceAtEnd(v: string)
    requires v != ""
    ensures var text := Base64.Encode(v); text != "" && forall i :: 0 <= i < |text| ==> !IsSpace(text[i])
  {
    Base64.EncodeAlphabet(v);
    AlphabetPrintable(Base64.Encode(v));
  }

  lemma ControlValueParses(control: Control)
    requires WritableControl(control)
    ensures ControlValue(control.oid, control.critical, TrimmedTail(control)) == ReadControl(control)
  {
    hide ValidOID, Base64.Encode, Base64.Decode, TrimSpace;
    match control.value
    case None =>
    case Some(v) =>
      Base64.RoundTrip(v, true);
      var text, encoded := TrimmedTail(control), Base64.Encode(v);
      if v == "" {
        EmptyText();
        TrimSpaceKeeps("");
        assert text[2..] == "";
      } else {
        NoSpaceAtEnd(v);
        TrimSpaceFront(encoded);
        assert text[2..] == " " + encoded && text[..2] == "::";
      }
      assert TrimSpace(text[2..]) == encoded;
  }

  lemma KeywordRead(control: Control)
    requires WritableControl(control)
    ensures var text := Flag(control.critical) + TrimmedTail(control);
            HasKeyword(text, "true") == control.critical && (!control.critical ==> HasKeyword(text, "false")) &&
            text[|Flag(control.critical)|..] == TrimmedTail(control)
  {
    hide ValidOID, Base64.Encode;
    var flag, tail := Flag(control.critical), TrimmedTail(control);
    var text := flag + tail;
    assert text[..|flag|] == flag && text[|flag|..] == tail;
    if !control.critical {
      assert ToLower(text[..4])[0] == 'f' && ToLower("true")[0] == 't';
    }
  }

  lemma ControlTextSplits(control: Control)
    requires WritableControl(control)
    ensures var text := TrimSpace(ControlText(control));
            text != "" && IndexOfBlank(text) == |control.oid| && text[..|control.oid|] == control.oid &&
            TrimSpace(text[|control.oid|..]) == Flag(control.critical) + TrimmedTail(control)
  {
    ArcChars(control.oid);
    TrimTail(control.oid + " " + Flag(control.critical), control);
    OidThenFlag(control.oid, Flag(control.critical), TrimmedTail(control));
    TrimTrimmed(Flag(control.critical), control);
    hide ValidOID, ControlTail, TrimmedTail, TrimSpace, IndexOfBlank, Arcs;
  }

  lemma OidThenFlag(oid: string, flag: string, tail: string)
    requires oid != "" && forall i :: 0 <= i < |oid| ==> OidChar(oid[i])
    ensures var text := oid + " " + flag + tail;
            text != "" && IndexOfBlank(text) == |oid| && text[..|oid|] == oid && text[|oid|..] == " " + (flag + tail)
  {
    hide IndexOfBlank;
    var text := oid + " " + flag + tail;
    assert text == oid + " " + (flag + tail);
    BlankAfterOid(oid, flag + tail);
  }

  /** A control is read back from its text, whether or not it is critical or has a value. */
  lemma ControlParses(control: Control)
    requires WritableControl(control)
    ensures ParseControl(ControlText(control)) == ReadControl(control)
  {
    hide ValidOID, Base64.Encode, ControlTail, TrimmedTail, ControlValue, HasKeyword, TrimSpace, IndexOfBlank;
    ControlTextSplits(control);
    KeywordRead(control);
    ControlValueParses(control);
    TrimTailAlone(control);
  }

  lemma BlankAfterOid(oid: string, rest: string)
    requires forall i :: 0 <= i < |oid| ==> OidChar(oid[i])
    ensures IndexOfBlank(oid + " " + rest) == |oid|
  {
    var s := oid + " " + rest;
    assert s[|oid|] == ' ' && forall i :: 0 <= i < |oid| ==> s[i] == oid[i];
  }

  lemma TailEnds(control: Control)
    requires WritableControl(control)
    ensures var tail := TrimmedTail(control);
            tail != "" ==> tail[0] == ':' && !IsSpace(tail[|tail| - 1])
  {
    if control.value.Some? && control.value.value != "" { NoSpaceAtEnd(control.value.value); }
  }

  lemma TrimTrimmed(flag: string, control: Control)
    requires WritableControl(control) && (flag == "true" || flag == "false")
    ensures TrimSpace(" " + (flag + TrimmedTail(control))) == flag + TrimmedTail(control)
  {
    TailEnds(control);
    hide ValidOID, Base64.Encode, TrimmedTail, TrimSpace;
    TrimSpaceFront(flag + TrimmedTail(control));
  }

  lemma TrimTailAlone(control: Control)
    requires WritableControl(control)
    ensures TrimSpace(TrimmedTail(control)) == TrimmedTail(control)
  {
    TailEnds(control);
    hide ValidOID, Base64.Encode, TrimmedTail, TrimSpace;
    TrimSpaceKeeps(TrimmedTail(control));
  }

  lemma ControlTextPrintable(control: Control)
    requires WritableControl(control)
    ensures Printable(ControlText(control)) && ControlText(control) != "" && ControlText(control)[0] != ' '
  {
    ArcChars(control.oid);
    hide ValidOID, Arcs, Base64.Encode, Base64.Decode;
    match control.value {
      case None =>
      case Some(v) => if v == "" { EmptyText(); } else { EncodedText(v); }
    }
    assert Printable(ControlTail(control));
    assert Printable(control.oid + " " + Flag(control.critical));
    hide Printable, ControlTail;
    PrintableParts(control.oid + " " + Flag(control.critical), ControlTail(control));
  }

  lemma ControlLineClean(control: Control)
    requires WritableControl(control)
    ensures Clean(ControlLine(control)) && ControlLine(control) != "-"
  {
    ControlTextPrintable(control);
    hide ControlText, WritableControl;
    PrintableParts("control: ", ControlText(control));
    assert ControlLine(control)[0] == 'c';
  }

  lemma ControlLineParses(control: Control)
    requires WritableControl(control)
    ensures var line := ControlLine(control);
            Named(line, "control") && !ParseLine(line).value.mode.Url? &&
            ParseControl(ParseLine(line).value.value) == ReadControl(control)
  {
    ControlParses(control);
    ControlTextPrintable(control);
    KeywordsAreDescriptions();
    PlainLineParses("control", ControlText(control));
    hide ControlText, ValidDescription, ParseLine, ParseControl, WritableControl, Printable, EqualFold;
    ControlLineShape(ControlText(control));
    assert EqualFold("control", "control") by { EqualFoldSelf("control"); }
  }

  lemma ControlLineShape(text: string)
    ensures "control: " + text == "control" + ":" + (" " + text)
  {
    assert "control: " == "control" + ":" + " ";
  }

  /** A value that needs no encoding stands behind one blank. */
  lemma PlainLineParses(name: string, text: string)
    requires ValidDescription(name) && text != "" && text[0] != ' '
    ensures ParseLine(name + ":" + (" " + text)) == Some(ValueLine(name, text, Plain))
  {
    hide ValidDescription, ParseLine, Base64.Decode;
    LineParses(name, " " + text);
    assert (" " + text)[1..] == text;
  }

  lemma {:induction false} ControlLinesRead(controls: seq<Control>, rest: seq<string>)
    requires forall i :: 0 <= i < |controls| ==> WritableControl(controls[i])
    requires rest != [] ==> !Named(rest[0], "control")
    ensures TakeControls(ControlLines(controls) + rest) == ReadControls(controls, rest)
    decreases |controls|
  {
    hide ControlLine, ParseLine, ParseControl, Named, WritableControl, ToLower, EqualFold;
    if controls == [] {
      assert ControlLines(controls) + rest == rest;
    } else {
      assert WritableControl(controls[0]);
      ControlLineParses(controls[0]);
      ControlLinesRead(controls[1..], rest);
      var lines := ControlLines(controls) + rest;
      assert lines[0] == ControlLine(controls[0]) && lines[1..] == ControlLines(controls[1..]) + rest;
      assert controls == [controls[0]] + controls[1..];
    }
  }
}
