/** Reading change records back: value lines, record controls, modify and moddn records. */
module LdifParse {
  import opened Text
  import opened LdifLines
  import opened LdifRecords
  import Base64

  // ----- value lines -----

  datatype ValueMode = Plain | Encoded | Url

  datatype ValueLine = ValueLine(name: string, value: string, mode: ValueMode)

  function TrimLeftBlank(s: string): (r: string)
    ensures |r| <= |s|
  {
    if s != "" && s[0] == ' ' then TrimLeftBlank(s[1..]) else s
  }

  /** parseLDAPWriteLine. */
  function ParseLine(line: string): Option<ValueLine> {
    var colon := IndexOf(line, ':');
    if colon == 0 || colon == |line| || !ValidDescription(line[..colon]) then None
    else
      var name, remainder := line[..colon], line[colon + 1..];
      if remainder == "" then Some(ValueLine(name, "", Plain))
      else if remainder[0] == ':' then
        match Base64.Decode(TrimLeftBlank(remainder[1..]), false)
        case None => None
        case Some(value) => Some(ValueLine(name, value, Encoded))
      else if remainder[0] == '<' then Some(ValueLine(name, TrimLeftBlank(remainder[1..]), Url))
      else Some(ValueLine(name, TrimLeftBlank(remainder), Plain))
  }

  predicate Named(line: string, name: string) {
    ParseLine(line).Some? && EqualFold(ParseLine(line).value.name, name)
  }

  // ----- record controls -----

  /** FromFile stands for the paths that read a local file, which the model does not follow. */
  datatype ControlRead = ReadControl(control: Control) | BadControl | FromFile

  function IndexOfBlank(s: string): (n: nat)
    ensures n <= |s|
    ensures n < |s| ==> s[n] == ' ' || s[n] == '\t'
    ensures forall i :: 0 <= i < n ==> s[i] != ' ' && s[i] != '\t'
  {
    if s == "" || s[0] == ' ' || s[0] == '\t' then 0 else 1 + IndexOfBlank(s[1..])
  }

  function TrimLeftBlanks(s: string): string {
    if s != "" && (s[0] == ' ' || s[0] == '\t') then TrimLeftBlanks(s[1..]) else s
  }

  predicate HasKeyword(s: string, keyword: string) {
    |s| >= |keyword| && EqualFold(s[..|keyword|], keyword) &&
    (|s| == |keyword| || s[|keyword|] == ' ' || s[|keyword|] == '\t' || s[|keyword|] == ':')
  }

  predicate HasWhitespace(s: string) {
    exists i :: 0 <= i < |s| && (s[i] == ' ' || s[i] == '\t' || s[i] == '\r' || s[i] == '\n')
  }

  /** decodeLDAPControlBase64. */
  function DecodeControl(text: string): Option<string> {
    if HasWhitespace(text) || |text| > MAX_CONTROL_TEXT then None else Base64.Decode(text, true)
  }

  function ControlValue(oid: string, critical: bool, text: string): ControlRead {
    if text == "" then ReadControl(Control(oid, critical, None))
    else if |text| >= 2 && text[..2] == "::" then
      match DecodeControl(TrimSpace(text[2..]))
      case None => BadControl
      case Some(value) => ReadControl(Control(oid, critical, Some(value)))
    else if |text| >= 2 && text[..2] == ":<" then FromFile
    else if text[0] == ':' then
      var value := TrimLeftBlanks(text[1..]);
      if |value| > MAX_RECORD then BadControl else ReadControl(Control(oid, critical, Some(value)))
    else BadControl
  }

  /** parseLDAPWriteRecordControl. */
  function ParseControl(value: string): ControlRead {
    var text := TrimSpace(value);
    var end := IndexOfBlank(text);
    var oid := text[..end];
    var remainder := TrimSpace(text[end..]);
    if text == "" || !ValidOID(oid) then BadControl
    else if HasKeyword(remainder, "true") then ControlValue(oid, true, TrimSpace(remainder[4..]))
    else if HasKeyword(remainder, "false") then ControlValue(oid, false, TrimSpace(remainder[5..]))
    else ControlValue(oid, false, remainder)
  }

  datatype ControlsRead = ReadControls(controls: seq<Control>, rest: seq<string>) | BadControls | ControlsFromFile

  /** The controls at the front of the lines that follow the DN. */
  function TakeControls(lines: seq<string>): ControlsRead
    decreases |lines|
  {
    if lines == [] || !Named(lines[0], "control") then ReadControls([], lines)
    else
      match ParseControl(ParseLine(lines[0]).value.value)
      case BadControl => BadControls
      case FromFile => ControlsFromFile
      case ReadControl(control) =>
        match TakeControls(lines[1..])
        case ReadControls(controls, rest) => ReadControls([control] + controls, rest)
        case failed => failed
  }

  predicate HasControlLine(lines: seq<string>) {
    exists i :: 0 <= i < |lines| && lines[i] != "-" && Named(lines[i], "control")
  }

  // ----- modify records -----

  function KindOf(name: string): Option<ChangeKind> {
    if ToLower(name) == "add" then Some(Add)
    else if ToLower(name) == "delete" then Some(Delete)
    else if ToLower(name) == "replace" then Some(Replace)
    else if ToLower(name) == "increment" then Some(Increment)
    else None
  }

  datatype ValuesRead = ReadValues(values: seq<string>, rest: seq<string>) | BadValues

  /** The values up to a "-" line or the end of the record. */
  function TakeValues(lines: seq<string>, attribute: string): (r: ValuesRead)
    ensures r.ReadValues? ==> |r.rest| <= |lines| && (r.rest == [] || r.rest[0] == "-")
    decreases |lines|
  {
    if lines == [] || lines[0] == "-" then ReadValues([], lines)
    else
      match ParseLine(lines[0])
      case None => BadValues
      case Some(line) =>
        if line.mode.Url? || !EqualFold(line.name, attribute) then BadValues
        else
          match TakeValues(lines[1..], attribute)
          case BadValues => BadValues
          case ReadValues(values, rest) => ReadValues([line.value] + values, rest)
  }

  function ParseChanges(lines: seq<string>): Option<seq<Change>>
    decreases |lines|
  {
    if lines == [] then Some([])
    else
      match ParseLine(lines[0])
      case None => None
      case Some(header) =>
        var attribute := header.value;
        if header.mode.Url? || !ValidDescription(attribute) || KindOf(header.name).None? then None
        else
          match TakeValues(lines[1..], attribute)
          case BadValues => None
          case ReadValues(values, rest) =>
            var kind := KindOf(header.name).value;
            if kind.Increment? && |values| != 1 then None
            else
              match ParseChanges(if rest == [] then [] else rest[1..])
              case None => None
              case Some(changes) => Some([Change(kind, attribute, values)] + changes)
  }

  /** The request and DN of a record, still to be validated. */
  datatype RecordRead = ReadRecord(dn: string, request: Request) | BadRecord

  function ParseModify(lines: seq<string>, explicitChangeType: bool): RecordRead {
    var start := if explicitChangeType then 2 else 1;
    if |lines| < start + 1 || !Named(lines[0], "dn") then BadRecord
    else if explicitChangeType &&
            (!Named(lines[1], "changetype") || ParseLine(lines[1]).value.mode.Url? ||
             !EqualFold(ParseLine(lines[1]).value.value, "modify")) then BadRecord
    else
      match ParseChanges(lines[start..])
      case None => BadRecord
      case Some(changes) => ReadRecord(ParseLine(lines[0]).value.value, Modify(changes))
  }

  function Join(changes: seq<Change>, more: Option<seq<Change>>): Option<seq<Change>> {
    match more case None => None case Some(rest) => Some(changes + rest)
  }

  lemma JoinSnoc(changes: seq<Change>, change: Change, more: Option<seq<Change>>)
    ensures Join(changes + [change], more) ==
            Join(changes, match more case None => None case Some(rest) => Some([change] + rest))
  {
    if more.Some? { assert changes + [change] + more.value == changes + ([change] + more.value); }
  }

  /** The value loop of parseLDAPModifyRecord, from line `from` on. */
  method ReadValueLines(lines: seq<string>, from: nat, attribute: string)
    returns (ok: bool, values: seq<string>, index: nat)
    requires from <= |lines|
    ensures ok <==> TakeValues(lines[from..], attribute).ReadValues?
    ensures ok ==> from <= index <= |lines| && TakeValues(lines[from..], attribute) == ReadValues(values, lines[index..])
  {
    hide ParseLine, ValidDescription, TakeValues, EqualFold, PhysicalLines;
    index := from;
    values := [];
    ghost var whole := TakeValues(lines[from..], attribute);
    assert Behind([], whole) == whole by { if whole.ReadValues? { assert [] + whole.values == whole.values; } }
    while index < |lines| && lines[index] != "-"
      invariant from <= index <= |lines|
      invariant Behind(values, TakeValues(lines[index..], attribute)) == whole
    {
      TakeValuesStep(lines, index, attribute, values);
      var parsed := ParseLine(lines[index]);
      if parsed.None? || parsed.value.mode.Url? || !EqualFold(parsed.value.name, attribute) {
        return false, [], index;
      }
      values := values + [parsed.value.value];
      index := index + 1;
    }
    TakeValuesEnd(lines, index, attribute);
    assert values + [] == values;
    ok := true;
  }

  function Behind(values: seq<string>, more: ValuesRead): ValuesRead {
    match more case BadValues => BadValues case ReadValues(rest, lines) => ReadValues(values + rest, lines)
  }

  lemma TakeValuesStep(lines: seq<string>, index: nat, attribute: string, values: seq<string>)
    requires index < |lines| && lines[index] != "-"
    ensures var parsed := ParseLine(lines[index]);
            Behind(values, TakeValues(lines[index..], attribute)) ==
            if parsed.None? || parsed.value.mode.Url? || !EqualFold(parsed.value.name, attribute) then BadValues
            else Behind(values + [parsed.value.value], TakeValues(lines[index + 1..], attribute))
  {
    hide ParseLine, EqualFold;
    assert lines[index..][1..] == lines[index + 1..];
    var rest := TakeValues(lines[index + 1..], attribute);
    var parsed := ParseLine(lines[index]);
    if parsed.Some? && rest.ReadValues? {
      assert values + ([parsed.value.value] + rest.values) == values + [parsed.value.value] + rest.values;
    }
  }

  lemma TakeValuesEnd(lines: seq<string>, index: nat, attribute: string)
    requires index <= |lines| && (index < |lines| ==> lines[index] == "-")
    ensures TakeValues(lines[index..], attribute) == ReadValues([], lines[index..])
  {
  }

  /** parseLDAPModifyRecord. */
  method ParseModifyRecord(lines: seq<string>, explicitChangeType: bool) returns (result: RecordRead)
    ensures result == ParseModify(lines, explicitChangeType)
  {
    hide ParseLine, ValidDescription, TakeValues, KindOf;
    var minimum, start := 2, 1;
    if explicitChangeType { minimum, start := 3, 2; }
    if |lines| < minimum { return BadRecord; }
    if !Named(lines[0], "dn") { return BadRecord; }
    if explicitChangeType {
      if !Named(lines[1], "changetype") { return BadRecord; }
      var changeType := ParseLine(lines[1]).value;
      if changeType.mode.Url? || !EqualFold(changeType.value, "modify") { return BadRecord; }
    }
    var changes: seq<Change> := [];
    var index: nat := start;
    ghost var whole := ParseChanges(lines[start..]);
    assert Join([], whole) == whole by { if whole.Some? { assert [] + whole.value == whole.value; } }
    while index < |lines|
      invariant start <= index <= |lines|
      invariant Join(changes, ParseChanges(lines[index..])) == whole
    {
      assert lines[index..][1..] == lines[index + 1..];
      var header := ParseLine(lines[index]);
      if header.None? || header.value.mode.Url? { return BadRecord; }
      var attribute := header.value.value;
      if !ValidDescription(attribute) { return BadRecord; }
      var kind := KindOf(header.value.name);
      if kind.None? { return BadRecord; }
      var ok, values, next := ReadValueLines(lines, index + 1, attribute);
      if !ok { return BadRecord; }
      if kind.value.Increment? && |values| != 1 { return BadRecord; }
      ghost var rest := lines[next..];
      if next < |lines| {
        assert rest[1..] == lines[next + 1..];
        next := next + 1;
      }
      assert lines[next..] == if rest == [] then [] else rest[1..];
      JoinSnoc(changes, Change(kind.value, attribute, values), ParseChanges(lines[next..]));
      changes := changes + [Change(kind.value, attribute, values)];
      index := next;
    }
    assert changes + [] == changes;
    result := ReadRecord(ParseLine(lines[0]).value.value, Modify(changes));
  }

  // ----- moddn records -----

  predicate FieldLine(line: string, name: string) {
    Named(line, name) && !ParseLine(line).value.mode.Url?
  }

  /** parseLDAPModifyDNRecord. */
  function ParseModifyDN(lines: seq<string>): RecordRead {
    if |lines| < 4 || |lines| > 5 || ParseLine(lines[0]).None? then BadRecord
    else if !FieldLine(lines[2], "newrdn") || !FieldLine(lines[3], "deleteoldrdn") then BadRecord
    else if |lines| == 5 && !FieldLine(lines[4], "newsuperior") then BadRecord
    else
      var deleteOld := ParseLine(lines[3]).value.value;
      if deleteOld != "0" && deleteOld != "1" then BadRecord
      else ReadRecord(ParseLine(lines[0]).value.value,
                      ModifyDN(ParseLine(lines[2]).value.value, deleteOld == "1",
                               if |lines| == 5 then ParseLine(lines[4]).value.value else ""))
  }

  // ----- validation -----

  predicate ValidChange(change: Change) {
    ValidDescription(change.attribute) &&
    (change.kind.Add? ==> change.values != []) && (change.kind.Increment? ==> |change.values| == 1)
  }

  predicate ValidRequest(names: Names, request: Request) {
    match request
    case Modify(changes) => changes != [] && forall i :: 0 <= i < |changes| ==> ValidChange(changes[i])
    case ModifyDN(newRDN, _, newSuperior) =>
      names.validRDN(newRDN) && (newSuperior != "" ==> names.validDN(newSuperior))
  }

  /** validateLDAPWriteOperation. */
  predicate ValidOperation(names: Names, dn: string, request: Request) {
    names.validDN(dn) && ValidRequest(names, request)
  }

  // ----- whole records -----

  datatype ParseState = ParseState(sawVersion: bool, sawOperation: bool)

  /** Elsewhere: an external file value, or a record handed to the LDIF library. */
  datatype Parsed = NoOperation | Parsed(operation: Operation) | Rejected | Elsewhere

  datatype RecordParse = RecordParse(result: Parsed, state: ParseState)

  datatype Scan = AllInline | Malformed | External

  /** The pass that loads external values; it also checks that every line is a value line. */
  function ScanValues(lines: seq<string>): Scan
    decreases |lines|
  {
    if lines == [] then AllInline
    else if lines[0] == "-" then ScanValues(lines[1..])
    else if ParseLine(lines[0]).None? then Malformed
    else if ParseLine(lines[0]).value.mode.Url? && !Named(lines[0], "control") then External
    else ScanValues(lines[1..])
  }

  function Validated(names: Names, read: RecordRead, controls: seq<Control>): Parsed {
    if read.BadRecord? || !ValidOperation(names, read.dn, read.request) then Rejected
    else Parsed(Operation(read.dn, read.request, controls))
  }

  /** From the lines of one change, its controls already taken off. */
  function ParseChange(names: Names, lines: seq<string>, controls: seq<Control>, allowContentAdd: bool): Parsed
    requires lines != []
  {
    var changeType := if |lines| > 1 && Named(lines[1], "changetype") then ToLower(ParseLine(lines[1]).value.value) else "";
    if changeType == "moddn" || changeType == "modrdn" then Validated(names, ParseModifyDN(lines), controls)
    else if changeType == "modify" then Validated(names, ParseModify(lines, true), controls)
    else if changeType == "" && !allowContentAdd then Validated(names, ParseModify(lines, false), controls)
    else Elsewhere
  }

  function ParseOperation(names: Names, lines: seq<string>, allowContentAdd: bool): Parsed
    requires lines != []
  {
    match ScanValues(lines)
    case Malformed => Rejected
    case External => Elsewhere
    case AllInline =>
      match TakeControls(lines[1..])
      case BadControls => Rejected
      case ControlsFromFile => Elsewhere
      case ReadControls(controls, rest) =>
        if HasControlLine(rest) then Rejected
        else ParseChange(names, [lines[0]] + rest, controls, allowContentAdd)
  }

  function ParseFromDN(names: Names, lines: seq<string>, allowContentAdd: bool, state: ParseState): RecordParse
    requires lines != []
  {
    if ParseLine(lines[0]).None? then RecordParse(Rejected, state)
    else
      var next := state.(sawOperation := true);
      if !Named(lines[0], "dn") then RecordParse(Rejected, next)
      else RecordParse(ParseOperation(names, lines, allowContentAdd), next)
  }

  /** parseLDAPWriteRecord. */
  function ParseRecord(names: Names, raw: string, allowContentAdd: bool, state: ParseState): RecordParse {
    match Unfold(raw)
    case None => RecordParse(Rejected, state)
    case Some(lines) =>
      if lines == [] then RecordParse(NoOperation, state)
      else if !Named(lines[0], "version") then ParseFromDN(names, lines, allowContentAdd, state)
      else
        var header := ParseLine(lines[0]).value;
        if state.sawVersion || state.sawOperation || !header.mode.Plain? || header.value != "1"
        then RecordParse(Rejected, state)
        else
          var next := state.(sawVersion := true);
          if |lines| == 1 then RecordParse(NoOperation, next)
          else ParseFromDN(names, lines[1..], allowContentAdd, next)
  }

  /** The front of parseLDAPWriteRecord: unfolding, the version header and the DN line. */
  method ParseWriteRecord(names: Names, raw: string, allowContentAdd: bool, state: ParseState)
    returns (result: RecordParse)
    ensures result == ParseRecord(names, raw, allowContentAdd, state)
  {
    hide ParseLine, ParseOperation, Unfold;
    var unfolded := LogicalLines(raw);
    if unfolded.None? { return RecordParse(Rejected, state); }
    var lines, next := unfolded.value, state;
    if lines == [] { return RecordParse(NoOperation, next); }
    if ParseLine(lines[0]).None? { return RecordParse(Rejected, next); }
    if Named(lines[0], "version") {
      var header := ParseLine(lines[0]).value;
      if next.sawVersion || next.sawOperation || !header.mode.Plain? || header.value != "1" {
        return RecordParse(Rejected, next);
      }
      next := next.(sawVersion := true);
      lines := lines[1..];
      if lines == [] { return RecordParse(NoOperation, next); }
      if ParseLine(lines[0]).None? { return RecordParse(Rejected, next); }
    }
    next := next.(sawOperation := true);
    if !Named(lines[0], "dn") { return RecordParse(Rejected, next); }
    var parsed := ParseLines(names, lines, allowContentAdd);
    result := RecordParse(parsed, next);
  }

  function After(controls: seq<Control>, more: ControlsRead): ControlsRead {
    match more
    case ReadControls(rest, lines) => ReadControls(controls + rest, lines)
    case failed => failed
  }

  /** The control loop of parseLDAPWriteRecord; it stops at the first line that is not a control. */
  method ReadControlLines(lines: seq<string>) returns (result: ControlsRead, controlEnd: nat)
    requires lines != []
    ensures result == TakeControls(lines[1..])
    ensures result.ReadControls? ==> 1 <= controlEnd <= |lines| && result.rest == lines[controlEnd..]
  {
    hide ParseLine, ParseControl;
    var controls: seq<Control> := [];
    controlEnd := 1;
    ghost var whole := TakeControls(lines[1..]);
    assert After([], whole) == whole by { if whole.ReadControls? { assert [] + whole.controls == whole.controls; } }
    while controlEnd < |lines|
      invariant 1 <= controlEnd <= |lines|
      invariant After(controls, TakeControls(lines[controlEnd..])) == whole
    {
      assert lines[controlEnd..][1..] == lines[controlEnd + 1..];
      if !Named(lines[controlEnd], "control") { break; }
      var read := ParseControl(ParseLine(lines[controlEnd]).value.value);
      if read.BadControl? { return BadControls, controlEnd; }
      if read.FromFile? { return ControlsFromFile, controlEnd; }
      AfterSnoc(controls, read.control, TakeControls(lines[controlEnd + 1..]));
      controls := controls + [read.control];
      controlEnd := controlEnd + 1;
    }
    assert controls + [] == controls;
    result := ReadControls(controls, lines[controlEnd..]);
  }

  lemma AfterSnoc(controls: seq<Control>, control: Control, more: ControlsRead)
    ensures After(controls + [control], more) ==
            After(controls, match more case ReadControls(rest, lines) => ReadControls([control] + rest, lines)
                                       case failed => failed)
  {
    if more.ReadControls? { assert controls + [control] + more.controls == controls + ([control] + more.controls); }
  }

  /** The rest of parseLDAPWriteRecord: external values, controls, and the change itself. */
  method ParseLines(names: Names, recordLines: seq<string>, allowContentAdd: bool) returns (result: Parsed)
    requires recordLines != []
    ensures result == ParseOperation(names, recordLines, allowContentAdd)
  {
    hide ParseLine, ParseControl, ParseModifyDN, ParseModify, ValidOperation;
    var lines := recordLines;
    for index := 0 to |lines|
      invariant ScanValues(lines[index..]) == ScanValues(recordLines)
    {
      assert lines[index..][1..] == lines[index + 1..];
      if lines[index] == "-" { continue; }
      var parsed := ParseLine(lines[index]);
      if parsed.None? { return Rejected; }
      if parsed.value.mode.Url? && !EqualFold(parsed.value.name, "control") { return Elsewhere; }
    }
    var read, controlEnd := ReadControlLines(lines);
    if read.BadControls? { return Rejected; }
    if read.ControlsFromFile? { return Elsewhere; }
    var controls := read.controls;
    for index := controlEnd to |lines|
      invariant forall i :: controlEnd <= i < index ==> lines[i] == "-" || !Named(lines[i], "control")
    {
      if lines[index] == "-" { continue; }
      if Named(lines[index], "control") {
        assert lines[controlEnd..][index - controlEnd] == lines[index];
        return Rejected;
      }
    }
    assert forall i :: 0 <= i < |lines[controlEnd..]| ==> lines[controlEnd..][i] == lines[controlEnd + i];
    lines := [lines[0]] + lines[controlEnd..];
    var changeType := "";
    if |lines| > 1 && Named(lines[1], "changetype") {
      changeType := ToLower(ParseLine(lines[1]).value.value);
    }
    if changeType == "moddn" || changeType == "modrdn" {
      return Validated(names, ParseModifyDN(lines), controls);
    }
    if changeType == "modify" {
      var record := ParseModifyRecord(lines, true);
      return Validated(names, record, controls);
    }
    if changeType == "" && !allowContentAdd {
      var record := ParseModifyRecord(lines, false);
      return Validated(names, record, controls);
    }
    result := Elsewhere;
  }
}
