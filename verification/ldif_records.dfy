/** LDAP write operations as LDIF change records: printing them and parsing them (RFC 2849). */
module LdifRecords {
  import opened Text
  import opened LdifLines
  import Base64

  const MAX_CONTROL_TEXT: nat := 11_184_812   // base64 length of 8 MiB

  // ----- operations -----

  datatype Control = Control(oid: string, critical: bool, value: Option<string>)

  datatype ChangeKind = Add | Delete | Replace | Increment

  datatype Change = Change(kind: ChangeKind, attribute: string, values: seq<string>)

  /** The operations whose records this command parses itself. */
  datatype Request =
    | Modify(changes: seq<Change>)
    | ModifyDN(newRDN: string, deleteOldRDN: bool, newSuperior: string)

  datatype Operation = Operation(dn: string, request: Request, controls: seq<Control>)

  /** The DN library's verdicts: at least one RDN, exactly one RDN. */
  datatype Names = Names(validDN: string -> bool, validRDN: string -> bool)

  // ----- identifiers -----

  predicate KeyString(s: string) {
    s != "" && IsAlpha(s[0]) && forall i :: 1 <= i < |s| ==> IsAlpha(s[i]) || IsDigit(s[i]) || s[i] == '-'
  }

  predicate NumericOID(s: string, expectDigit: bool) {
    if s == "" then !expectDigit
    else if IsDigit(s[0]) then NumericOID(s[1..], false)
    else s[0] == '.' && !expectDigit && NumericOID(s[1..], true)
  }

  predicate ValidOptions(s: string)
    decreases |s|
  {
    var end := IndexOf(s, ';');
    KeyString(s[..end]) && (end < |s| ==> ValidOptions(s[end + 1..]))
  }

  /** validLDIFAttributeDescription. */
  predicate ValidDescription(s: string) {
    var end := IndexOf(s, ';');
    (KeyString(s[..end]) || NumericOID(s[..end], true)) && (end < |s| ==> ValidOptions(s[end + 1..]))
  }

  predicate Arc(s: string) {
    s != "" && (|s| > 1 ==> s[0] != '0') && forall i :: 0 <= i < |s| ==> IsDigit(s[i])
  }

  predicate Arcs(s: string)
    decreases |s|
  {
    var end := IndexOf(s, '.');
    Arc(s[..end]) && (end < |s| ==> Arcs(s[end + 1..]))
  }

  /** validLDAPOperationOID: at least two arcs. */
  predicate ValidOID(s: string) { IndexOf(s, '.') < |s| && Arcs(s) }

  // ----- printing -----

  /** ldifValueRequiresBase64. */
  predicate RequiresBase64(value: string) {
    value != "" &&
    (value[0] == ' ' || value[0] == ':' || value[0] == '<' || value[|value| - 1] == ' ' ||
     exists i :: 0 <= i < |value| && !(' ' <= value[i] <= '~'))
  }

  function AttributeLine(name: string, value: string): string {
    name + ":" +
    if value == "" then "" else if RequiresBase64(value) then ": " + Base64.Encode(value) else " " + value
  }

  function Flag(critical: bool): string { if critical then "true" else "false" }

  function ControlTail(control: Control): string {
    match control.value case None => "" case Some(v) => ":: " + Base64.Encode(v)
  }

  function ControlText(control: Control): string {
    control.oid + " " + Flag(control.critical) + ControlTail(control)
  }

  function ControlLine(control: Control): string { "control: " + ControlText(control) }

  function KindName(kind: ChangeKind): string {
    match kind case Add => "add" case Delete => "delete" case Replace => "replace" case Increment => "increment"
  }

  function ValueLines(attribute: string, values: seq<string>): seq<string> {
    if values == [] then [] else [AttributeLine(attribute, values[0])] + ValueLines(attribute, values[1..])
  }

  function ChangeLines(change: Change): seq<string> {
    [AttributeLine(KindName(change.kind), change.attribute)] + ValueLines(change.attribute, change.values) + ["-"]
  }

  function ChangesLines(changes: seq<Change>): seq<string> {
    if changes == [] then [] else ChangeLines(changes[0]) + ChangesLines(changes[1..])
  }

  function ControlLines(controls: seq<Control>): seq<string> {
    if controls == [] then [] else [ControlLine(controls[0])] + ControlLines(controls[1..])
  }

  function RequestLines(request: Request): seq<string> {
    match request
    case Modify(changes) => [AttributeLine("changetype", "modify")] + ChangesLines(changes)
    case ModifyDN(newRDN, deleteOldRDN, newSuperior) =>
      [AttributeLine("changetype", "moddn"), AttributeLine("newrdn", newRDN),
       AttributeLine("deleteoldrdn", if deleteOldRDN then "1" else "0")] +
      if newSuperior == "" then [] else [AttributeLine("newsuperior", newSuperior)]
  }

  /** The logical lines of an operation's record. */
  function Lines(op: Operation): seq<string> {
    [AttributeLine("dn", op.dn)] + ControlLines(op.controls) + RequestLines(op.request)
  }

  function FoldAll(lines: seq<string>): seq<string> {
    if lines == [] then [] else Fold(lines[0], LINE_WIDTH, true) + FoldAll(lines[1..])
  }

  function RecordText(op: Operation): string { JoinLines(FoldAll(Lines(op))) }

  /** What the failure file holds for one operation. */
  function Print(op: Operation): string { RecordText(op) + "\n" }

  lemma FoldAllAppend(a: seq<string>, b: seq<string>)
    ensures FoldAll(a + b) == FoldAll(a) + FoldAll(b)
    decreases |a|
  {
    if a == [] {
      assert a + b == b;
    } else {
      assert (a + b)[1..] == a[1..] + b;
      FoldAllAppend(a[1..], b);
    }
  }

  /** Text written so far, for a list of logical lines. */
  function Folded(lines: seq<string>): string { JoinLines(FoldAll(lines)) }

  lemma FoldedSnoc(lines: seq<string>, line: string)
    ensures Folded(lines + [line]) == Folded(lines) + JoinLines(Fold(line, LINE_WIDTH, true))
  {
    FoldAllAppend(lines, [line]);
    assert FoldAll([line]) == Fold(line, LINE_WIDTH, true) + FoldAll([line][1..]);
    assert FoldAll([line]) == Fold(line, LINE_WIDTH, true);
    JoinLinesAppend(FoldAll(lines), FoldAll([line]));
  }

  method WriteLine(writer: TextWriter, line: string, ghost lines: seq<string>, ghost start: string)
    requires writer.output == start + Folded(lines)
    modifies writer
    ensures writer.output == start + Folded(lines + [line])
  {
    hide Fold, FoldAll, JoinLines, Folded;
    FoldedSnoc(lines, line);
    WriteFoldedLine(writer, line, LINE_WIDTH);
  }

  /** writeLDAPWriteOperationLDIF, for the two requests above. */
  method WriteOperation(writer: TextWriter, op: Operation) returns (ok: bool)
    modifies writer
    ensures ok <==> forall i :: 0 <= i < |op.controls| ==> ValidOID(op.controls[i].oid)
    ensures ok ==> writer.output == old(writer.output) + Print(op)
  {
    hide AttributeLine, ControlLine, FoldAll, JoinLines, ValidOID, RequestLines;
    ghost var start := writer.output;
    ghost var done: seq<string> := [];
    assert writer.output == start + Folded([]) by { NothingFolded(); }
    WriteLine(writer, AttributeLine("dn", op.dn), done, start);
    done := done + [AttributeLine("dn", op.dn)];
    for index := 0 to |op.controls|
      invariant writer.output == start + Folded(done)
      invariant done + ControlLines(op.controls[index..]) == [AttributeLine("dn", op.dn)] + ControlLines(op.controls)
      invariant forall i :: 0 <= i < index ==> ValidOID(op.controls[i].oid)
    {
      if !ValidOID(op.controls[index].oid) { return false; }
      WriteLine(writer, ControlLine(op.controls[index]), done, start);
      done := done + [ControlLine(op.controls[index])];
      assert op.controls[index..][1..] == op.controls[index + 1..];
    }
    ghost var front := done;
    assert front == [AttributeLine("dn", op.dn)] + ControlLines(op.controls);
    match op.request {
      case Modify(changes) =>
        done := WriteModify(writer, changes, done, start);
      case ModifyDN(newRDN, deleteOldRDN, newSuperior) =>
        done := WriteModifyDN(writer, op.request, done, start);
    }
    assert done == Lines(op);
    writer.Write("\n");
    ok := true;
  }

  lemma NothingFolded()
    ensures Folded([]) == ""
  {
  }

  method WriteModify(writer: TextWriter, changes: seq<Change>, ghost front: seq<string>, ghost start: string)
    returns (ghost done: seq<string>)
    requires writer.output == start + Folded(front)
    modifies writer
    ensures done == front + RequestLines(Modify(changes)) && writer.output == start + Folded(done)
  {
    hide AttributeLine, Folded, ChangeLines;
    var changeType := AttributeLine("changetype", "modify");
    WriteLine(writer, changeType, front, start);
    done := front + [changeType];
    for index := 0 to |changes|
      invariant writer.output == start + Folded(done)
      invariant done + ChangesLines(changes[index..]) == front + [changeType] + ChangesLines(changes)
    {
      done := WriteChange(writer, changes[index], done, start);
      assert changes[index..][1..] == changes[index + 1..];
    }
    assert done == front + [changeType] + ChangesLines(changes);
  }

  method WriteChange(writer: TextWriter, change: Change, ghost front: seq<string>, ghost start: string)
    returns (ghost done: seq<string>)
    requires writer.output == start + Folded(front)
    modifies writer
    ensures done == front + ChangeLines(change) && writer.output == start + Folded(done)
  {
    hide AttributeLine, Folded;
    var header := AttributeLine(KindName(change.kind), change.attribute);
    WriteLine(writer, header, front, start);
    done := front + [header];
    for value := 0 to |change.values|
      invariant writer.output == start + Folded(done)
      invariant done + ValueLines(change.attribute, change.values[value..]) ==
                front + [header] + ValueLines(change.attribute, change.values)
    {
      var line := AttributeLine(change.attribute, change.values[value]);
      WriteLine(writer, line, done, start);
      done := done + [line];
      assert change.values[value..][1..] == change.values[value + 1..];
    }
    WriteLine(writer, "-", done, start);
    assert done == front + [header] + ValueLines(change.attribute, change.values);
    done := done + ["-"];
  }

  method WriteModifyDN(writer: TextWriter, request: Request, ghost front: seq<string>, ghost start: string)
    returns (ghost done: seq<string>)
    requires request.ModifyDN? && writer.output == start + Folded(front)
    modifies writer
    ensures done == front + RequestLines(request) && writer.output == start + Folded(done)
  {
    hide AttributeLine, FoldAll, JoinLines;
    done := front;
    WriteLine(writer, AttributeLine("changetype", "moddn"), done, start);
    done := done + [AttributeLine("changetype", "moddn")];
    WriteLine(writer, AttributeLine("newrdn", request.newRDN), done, start);
    done := done + [AttributeLine("newrdn", request.newRDN)];
    var deleteOld := "0";
    if request.deleteOldRDN { deleteOld := "1"; }
    WriteLine(writer, AttributeLine("deleteoldrdn", deleteOld), done, start);
    done := done + [AttributeLine("deleteoldrdn", deleteOld)];
    if request.newSuperior != "" {
      WriteLine(writer, AttributeLine("newsuperior", request.newSuperior), done, start);
      done := done + [AttributeLine("newsuperior", request.newSuperior)];
    }
  }
}
