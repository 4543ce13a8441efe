/** The printed record and the printed file, read back. */
module LdifFile {
  import opened Text
  import opened LdifLines
  import opened LdifFolding
  import opened LdifRecords
  import opened LdifParse
  import opened LdifRoundTrip
  import Base64

  // ----- changes -----

  lemma DescriptionIsBytes(s: string)
    requires ValidDescription(s)
    ensures Base64.IsBytes(s)
  {
    DescriptionChars(s);
  }

  lemma {:induction false} ValueLinesRead(attribute: string, values: seq<string>, rest: seq<string>)
    requires ValidDescription(attribute)
    requires forall i :: 0 <= i < |values| ==> Base64.IsBytes(values[i])
    requires rest != [] && rest[0] == "-"
    ensures TakeValues(ValueLines(attribute, values) + rest, attribute) == ReadValues(values, rest)
    decreases |values|
  {
    hide AttributeLine, ParseLine, ValidDescription, EqualFold, Clean, Base64.IsBytes;
    if values == [] {
      assert ValueLines(attribute, values) + rest == rest;
    } else {
      AttributeLineParses(attribute, values[0]);
      AttributeLineClean(attribute, values[0]);
      EqualFoldSelf(attribute);
      ValueLinesRead(attribute, values[1..], rest);
      var lines := ValueLines(attribute, values) + rest;
      assert lines[0] == AttributeLine(attribute, values[0]);
      assert lines[1..] == ValueLines(attribute, values[1..]) + rest;
      assert values == [values[0]] + values[1..];
    }
  }

  predicate WritableChange(change: Change) {
    ValidChange(change) && forall i :: 0 <= i < |change.values| ==> Base64.IsBytes(change.values[i])
  }

  lemma KindRead(kind: ChangeKind)
    ensures KindOf(KindName(kind)) == Some(kind) && ValidDescription(KindName(kind))
  {
    KeywordsAreDescriptions();
    hide ValidDescription;
    assert ToLower("add") == "add" && ToLower("delete") == "delete";
    assert ToLower("replace") == "replace" && ToLower("increment") == "increment";
  }

  lemma {:induction false} ChangesRead(changes: seq<Change>)
    requires forall i :: 0 <= i < |changes| ==> WritableChange(changes[i])
    ensures ParseChanges(ChangesLines(changes)) == Some(changes)
    decreases |changes|
  {
    hide AttributeLine, ParseLine, ValidDescription, KindOf, TakeValues, KindName, Base64.IsBytes;
    if changes != [] {
      var change := changes[0];
      assert WritableChange(change);
      var header := AttributeLine(KindName(change.kind), change.attribute);
      var more := ChangesLines(changes[1..]);
      var lines := ChangesLines(changes);
      KindRead(change.kind);
      DescriptionIsBytes(change.attribute);
      AttributeLineParses(KindName(change.kind), change.attribute);
      ValueLinesRead(change.attribute, change.values, ["-"] + more);
      assert lines == [header] + (ValueLines(change.attribute, change.values) + (["-"] + more));
      assert lines[1..] == ValueLines(change.attribute, change.values) + (["-"] + more);
      assert (["-"] + more)[1..] == more;
      ChangesRead(changes[1..]);
      assert changes == [change] + changes[1..];
    }
  }

  // ----- all lines of a record -----

  /** A line the record parser reads in place: "-" or a value that is no file reference. */
  predicate Inline(line: string) {
    line == "-" || (ParseLine(line).Some? && !ParseLine(line).value.mode.Url?)
  }

  predicate Ordinary(line: string) { Clean(line) && Inline(line) }

  predicate AllOrdinary(lines: seq<string>) { forall i :: 0 <= i < |lines| ==> Ordinary(lines[i]) }

  lemma AllOrdinaryAppend(a: seq<string>, b: seq<string>)
    requires AllOrdinary(a) && AllOrdinary(b)
    ensures AllOrdinary(a + b)
  {
  }

  lemma AttributeLineOrdinary(name: string, value: string)
    requires ValidDescription(name) && Base64.IsBytes(value)
    ensures Ordinary(AttributeLine(name, value))
  {
    hide AttributeLine, ParseLine, ValidDescription;
    AttributeLineParses(name, value);
    AttributeLineClean(name, value);
  }

  lemma {:induction false} ControlLinesOrdinary(controls: seq<Control>)
    requires forall i :: 0 <= i < |controls| ==> WritableControl(controls[i])
    ensures AllOrdinary(ControlLines(controls))
    decreases |controls|
  {
    hide ControlLine, ParseLine, Clean, Named, WritableControl;
    if controls != [] {
      assert WritableControl(controls[0]);
      ControlLineClean(controls[0]);
      ControlLineInline(controls[0]);
      ControlLinesOrdinary(controls[1..]);
      AllOrdinaryAppend([ControlLine(controls[0])], ControlLines(controls[1..]));
    }
  }

  lemma ControlLineInline(control: Control)
    requires WritableControl(control)
    ensures Inline(ControlLine(control))
  {
    hide ControlLine, ParseLine, WritableControl;
    ControlLineParses(control);
  }

  lemma {:induction false} ValueLinesOrdinary(attribute: string, values: seq<string>)
    requires ValidDescription(attribute)
    requires forall i :: 0 <= i < |values| ==> Base64.IsBytes(values[i])
    ensures AllOrdinary(ValueLines(attribute, values))
    decreases |values|
  {
    hide AttributeLine, ParseLine, Clean, ValidDescription, Inline;
    if values != [] {
      AttributeLineOrdinary(attribute, values[0]);
      ValueLinesOrdinary(attribute, values[1..]);
      AllOrdinaryAppend([AttributeLine(attribute, values[0])], ValueLines(attribute, values[1..]));
    }
  }

  lemma {:induction false} ChangesLinesOrdinary(changes: seq<Change>)
    requires forall i :: 0 <= i < |changes| ==> WritableChange(changes[i])
    ensures AllOrdinary(ChangesLines(changes))
    decreases |changes|
  {
    hide AttributeLine, ParseLine, ValidDescription, Ordinary;
    if changes != [] {
      var change := changes[0];
      assert WritableChange(change);
      KindRead(change.kind);
      DescriptionIsBytes(change.attribute);
      AttributeLineOrdinary(KindName(change.kind), change.attribute);
      ValueLinesOrdinary(change.attribute, change.values);
      DashOrdinary();
      var header := [AttributeLine(KindName(change.kind), change.attribute)];
      AllOrdinaryAppend(header, ValueLines(change.attribute, change.values));
      AllOrdinaryAppend(header + ValueLines(change.attribute, change.values), ["-"]);
      ChangesLinesOrdinary(changes[1..]);
      AllOrdinaryAppend(ChangeLines(change), ChangesLines(changes[1..]));
    }
  }

  lemma DashOrdinary()
    ensures Ordinary("-")
  {
  }

  lemma WritableChanges(names: Names, op: Operation)
    requires Writable(names, op) && op.request.Modify?
    ensures forall i :: 0 <= i < |op.request.changes| ==> WritableChange(op.request.changes[i])
  {
    forall i | 0 <= i < |op.request.changes| ensures WritableChange(op.request.changes[i]) {
      assert ValidChange(op.request.changes[i]);
    }
  }

  /** Three fields and an optional fourth, as in a moddn record. */
  function FieldLines(a: string, x: string, b: string, y: string, c: string, z: string, d: string,
                      w: string): seq<string>
  {
    [AttributeLine(a, x), AttributeLine(b, y), AttributeLine(c, z)] + if w == "" then [] else [AttributeLine(d, w)]
  }

  lemma FieldLinesOrdinary(a: string, x: string, b: string, y: string, c: string, z: string, d: string, w: string)
    requires ValidDescription(a) && ValidDescription(b) && ValidDescription(c) && ValidDescription(d)
    requires Base64.IsBytes(x) && Base64.IsBytes(y) && Base64.IsBytes(z) && Base64.IsBytes(w)
    ensures AllOrdinary(FieldLines(a, x, b, y, c, z, d, w))
  {
    hide AttributeLine, ValidDescription, Ordinary;
    AttributeLineOrdinary(a, x);
    AttributeLineOrdinary(b, y);
    AttributeLineOrdinary(c, z);
    AttributeLineOrdinary(d, w);
  }

  lemma FieldLinesNoControl(a: string, x: string, b: string, y: string, c: string, z: string, d: string, w: string)
    requires ValidDescription(a) && ValidDescription(b) && ValidDescription(c) && ValidDescription(d)
    requires Base64.IsBytes(x) && Base64.IsBytes(y) && Base64.IsBytes(z) && Base64.IsBytes(w)
    requires !EqualFold(a, "control") && !EqualFold(b, "control") && !EqualFold(c, "control") && !EqualFold(d, "control")
    ensures !HasControlLine(FieldLines(a, x, b, y, c, z, d, w))
  {
    hide AttributeLine, ValidDescription, EqualFold, HasControlLine;
    HasControlOne(a, x);
    HasControlOne(b, y);
    HasControlOne(c, z);
    HasControlOne(d, w);
    HasControlNone();
    var first, second, third := [AttributeLine(a, x)], [AttributeLine(b, y)], [AttributeLine(c, z)];
    HasControlAppend(first, second);
    HasControlAppend(first + second, third);
    assert first + second + third == [AttributeLine(a, x), AttributeLine(b, y), AttributeLine(c, z)];
    HasControlAppend(first + second + third, if w == "" then [] else [AttributeLine(d, w)]);
  }

  function DeleteOldText(deleteOldRDN: bool): (r: string)
    ensures Base64.IsBytes(r)
  {
    if deleteOldRDN then "1" else "0"
  }

  lemma ModifyDNFields(newRDN: string, deleteOldRDN: bool, newSuperior: string)
    ensures RequestLines(ModifyDN(newRDN, deleteOldRDN, newSuperior)) ==
            FieldLines("changetype", "moddn", "newrdn", newRDN, "deleteoldrdn", DeleteOldText(deleteOldRDN),
                       "newsuperior", newSuperior)
  {
    hide AttributeLine;
  }

  lemma ModifyDNLines(newRDN: string, deleteOldRDN: bool, newSuperior: string)
    requires Base64.IsBytes(newRDN) && Base64.IsBytes(newSuperior)
    ensures var lines := RequestLines(ModifyDN(newRDN, deleteOldRDN, newSuperior));
            AllOrdinary(lines) && !HasControlLine(lines)
  {
    KeywordsAreDescriptions();
    KeywordsNotControl();
    ModifyDNFields(newRDN, deleteOldRDN, newSuperior);
    hide FieldLines, ValidDescription, EqualFold, HasControlLine, AllOrdinary, RequestLines, DeleteOldText;
    FieldLinesOrdinary("changetype", "moddn", "newrdn", newRDN, "deleteoldrdn", DeleteOldText(deleteOldRDN),
                       "newsuperior", newSuperior);
    FieldLinesNoControl("changetype", "moddn", "newrdn", newRDN, "deleteoldrdn", DeleteOldText(deleteOldRDN),
                        "newsuperior", newSuperior);
  }

  lemma ModifyLines(changes: seq<Change>)
    requires forall i :: 0 <= i < |changes| ==> WritableChange(changes[i])
    ensures var lines := RequestLines(Modify(changes));
            AllOrdinary(lines) &&
            (HasControlLine(lines) <==> exists i :: 0 <= i < |changes| && ControlClash(changes[i]))
  {
    KeywordsAreDescriptions();
    KeywordsNotControl();
    hide AttributeLine, ValidDescription, Ordinary, WritableChange, EqualFold, HasControlLine, ControlClash, ChangesLines;
    var header := [AttributeLine("changetype", "modify")];
    AttributeLineOrdinary("changetype", "modify");
    HasControlOne("changetype", "modify");
    ChangesLinesOrdinary(changes);
    HasControlChanges(changes);
    hide AllOrdinary;
    AllOrdinaryAppend(header, ChangesLines(changes));
    HasControlAppend(header, ChangesLines(changes));
  }

  lemma RequestLinesOrdinary(names: Names, op: Operation)
    requires Writable(names, op)
    ensures AllOrdinary(RequestLines(op.request))
    ensures HasControlLine(RequestLines(op.request)) <==> Clashes(op.request)
  {
    match op.request
    case Modify(changes) =>
      WritableChanges(names, op);
      ModifyLines(changes);
    case ModifyDN(newRDN, deleteOldRDN, newSuperior) =>
      ModifyDNLines(newRDN, deleteOldRDN, newSuperior);
  }

  lemma LinesOrdinary(names: Names, op: Operation)
    requires Writable(names, op)
    ensures AllOrdinary(Lines(op))
  {
    RequestLinesOrdinary(names, op);
    ControlLinesOrdinary(op.controls);
    hide AttributeLine, Ordinary, AllOrdinary, RequestLines, ControlLines, WritableControl, ValidOperation, Base64.IsBytes;
    DNLineOrdinary(op.dn);
    AllOrdinaryAppend([AttributeLine("dn", op.dn)], ControlLines(op.controls));
    AllOrdinaryAppend([AttributeLine("dn", op.dn)] + ControlLines(op.controls), RequestLines(op.request));
  }

  lemma DNLineOrdinary(dn: string)
    requires Base64.IsBytes(dn)
    ensures AllOrdinary([AttributeLine("dn", dn)])
  {
    KeywordsAreDescriptions();
    hide AttributeLine, Ordinary, ValidDescription;
    AttributeLineOrdinary("dn", dn);
  }

  lemma {:induction false} ScanOrdinary(lines: seq<string>)
    requires AllOrdinary(lines)
    ensures ScanValues(lines) == AllInline
    decreases |lines|
  {
    hide ParseLine, Clean, Named;
    if lines != [] {
      assert Ordinary(lines[0]);
      ScanOrdinary(lines[1..]);
    }
  }

  // ----- lines named "control" behind the change type -----

  /** A value line of the change would be taken for a misplaced record control. */
  predicate ControlClash(change: Change) { change.values != [] && EqualFold(change.attribute, "control") }

  predicate Clashes(request: Request) {
    request.Modify? && exists i :: 0 <= i < |request.changes| && ControlClash(request.changes[i])
  }

  lemma HasControlAppend(a: seq<string>, b: seq<string>)
    ensures HasControlLine(a + b) <==> HasControlLine(a) || HasControlLine(b)
  {
    hide Named;
    if HasControlLine(a) {
      var i :| 0 <= i < |a| && a[i] != "-" && Named(a[i], "control");
      assert (a + b)[i] == a[i];
    }
    if HasControlLine(b) {
      var i :| 0 <= i < |b| && b[i] != "-" && Named(b[i], "control");
      assert (a + b)[|a| + i] == b[i];
    }
  }

  lemma HasControlOne(name: string, value: string)
    requires ValidDescription(name) && Base64.IsBytes(value)
    ensures HasControlLine([AttributeLine(name, value)]) <==> EqualFold(name, "control")
  {
    hide AttributeLine, ParseLine, ValidDescription, EqualFold;
    AttributeLineParses(name, value);
    AttributeLineClean(name, value);
    var lines := [AttributeLine(name, value)];
    assert lines[0] == AttributeLine(name, value);
  }

  lemma {:induction false} HasControlValues(attribute: string, values: seq<string>)
    requires ValidDescription(attribute)
    requires forall i :: 0 <= i < |values| ==> Base64.IsBytes(values[i])
    ensures HasControlLine(ValueLines(attribute, values)) <==> values != [] && EqualFold(attribute, "control")
    decreases |values|
  {
    hide AttributeLine, Named, ValidDescription, EqualFold;
    if values != [] {
      HasControlOne(attribute, values[0]);
      HasControlValues(attribute, values[1..]);
      HasControlAppend([AttributeLine(attribute, values[0])], ValueLines(attribute, values[1..]));
    }
  }

  lemma KeywordsNotControl()
    ensures forall kind :: !EqualFold(KindName(kind), "control")
    ensures !EqualFold("changetype", "control") && !EqualFold("newrdn", "control")
    ensures !EqualFold("deleteoldrdn", "control") && !EqualFold("newsuperior", "control")
    ensures !EqualFold("dn", "version")
  {
    assert ToLower("control")[0] == 'c' && ToLower("control")[1] == 'o';
    assert ToLower("changetype")[1] == 'h';
    assert ToLower("add")[0] == 'a' && ToLower("delete")[0] == 'd' && ToLower("replace")[0] == 'r';
    assert ToLower("increment")[0] == 'i' && ToLower("newrdn")[0] == 'n' && ToLower("deleteoldrdn")[0] == 'd';
    assert ToLower("newsuperior")[0] == 'n' && ToLower("dn")[0] == 'd' && ToLower("version")[0] == 'v';
    forall kind ensures !EqualFold(KindName(kind), "control") {
      match kind case Add => case Delete => case Replace => case Increment =>
    }
  }

  lemma HasControlDash()
    ensures !HasControlLine(["-"])
  {
  }

  lemma HasControlChange(change: Change)
    requires WritableChange(change)
    ensures HasControlLine(ChangeLines(change)) <==> ControlClash(change)
  {
    hide AttributeLine, ValidDescription, EqualFold, HasControlLine;
    KindRead(change.kind);
    DescriptionIsBytes(change.attribute);
    KeywordsNotControl();
    var header := [AttributeLine(KindName(change.kind), change.attribute)];
    var values := ValueLines(change.attribute, change.values);
    HasControlOne(KindName(change.kind), change.attribute);
    HasControlValues(change.attribute, change.values);
    HasControlAppend(header, values);
    HasControlAppend(header + values, ["-"]);
    HasControlDash();
  }

  lemma {:induction false} HasControlChanges(changes: seq<Change>)
    requires forall i :: 0 <= i < |changes| ==> WritableChange(changes[i])
    ensures HasControlLine(ChangesLines(changes)) <==> exists i :: 0 <= i < |changes| && ControlClash(changes[i])
    decreases |changes|
  {
    hide HasControlLine, WritableChange, ControlClash, ChangeLines;
    if changes == [] {
      assert !HasControlLine([]) by { HasControlNone(); }
    } else {
      var rest := changes[1..];
      HasControlChange(changes[0]);
      HasControlChanges(rest);
      HasControlAppend(ChangeLines(changes[0]), ChangesLines(rest));
      if i :| 0 <= i < |changes| && ControlClash(changes[i]) {
        assert i == 0 || rest[i - 1] == changes[i];
      }
      if i :| 0 <= i < |rest| && ControlClash(rest[i]) {
        assert changes[i + 1] == rest[i];
      }
    }
  }

  lemma HasControlNone()
    ensures !HasControlLine([])
  {
  }
}
