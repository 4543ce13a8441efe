/** The failure file as a whole: what is printed for a list of operations is what is read back. */
module LdifReplay {
  import opened Text
  import opened LdifLines
  import opened LdifFolding
  import opened LdifRecords
  import opened LdifParse
  import opened LdifRoundTrip
  import opened LdifFile
  import Base64

  // ----- one record, as logical lines -----

  lemma FieldRead(name: string, value: string)
    requires ValidDescription(name) && Base64.IsBytes(value)
    ensures FieldLine(AttributeLine(name, value), name) && ParseLine(AttributeLine(name, value)).value.value == value
  {
    hide AttributeLine, ParseLine, ValidDescription, Base64.IsBytes, EqualFold;
    AttributeLineParses(name, value);
    EqualFoldSelf(name);
  }

  lemma NotNamed(name: string, value: string, other: string)
    requires ValidDescription(name) && Base64.IsBytes(value) && !EqualFold(name, other)
    ensures !Named(AttributeLine(name, value), other)
  {
    hide AttributeLine, ParseLine, ValidDescription, Base64.IsBytes, EqualFold;
    AttributeLineParses(name, value);
  }

  lemma ChangeTypeRead(value: string)
    requires Base64.IsBytes(value)
    ensures FieldLine(AttributeLine("changetype", value), "changetype")
    ensures ParseLine(AttributeLine("changetype", value)).value.value == value
    ensures !Named(AttributeLine("changetype", value), "control")
  {
    KeywordsAreDescriptions();
    KeywordsNotControl();
    hide AttributeLine, ParseLine, ValidDescription, Base64.IsBytes, EqualFold, FieldLine, Named;
    FieldRead("changetype", value);
    NotNamed("changetype", value, "control");
  }

  lemma ModifyRead(names: Names, dn: string, changes: seq<Change>, controls: seq<Control>, allowContentAdd: bool)
    requires Base64.IsBytes(dn) && ValidOperation(names, dn, Modify(changes))
    requires forall i :: 0 <= i < |changes| ==> WritableChange(changes[i])
    ensures ParseChange(names, [AttributeLine("dn", dn)] + RequestLines(Modify(changes)), controls, allowContentAdd) ==
            Parsed(Operation(dn, Modify(changes), controls))
  {
    var dnLine, typeLine := AttributeLine("dn", dn), AttributeLine("changetype", "modify");
    var lines := [dnLine] + RequestLines(Modify(changes));
    ModifyHeaders(dn);
    ChangesNotEmpty(names, dn, changes);
    ChangesRead(changes);
    ModifyParts(dn, changes);
    hide AttributeLine, ParseLine, EqualFold, ToLower, WritableChange, ParseModifyDN, ValidOperation, ParseChanges,
         ChangesLines, RequestLines, Base64.IsBytes;
    assert ParseModify(lines, true) == ReadRecord(dn, Modify(changes));
  }

  lemma ModifyParts(dn: string, changes: seq<Change>)
    ensures var lines := [AttributeLine("dn", dn)] + RequestLines(Modify(changes));
            |lines| == 2 + |ChangesLines(changes)| && lines[0] == AttributeLine("dn", dn) &&
            lines[1] == AttributeLine("changetype", "modify") && lines[2..] == ChangesLines(changes)
  {
    hide AttributeLine, ChangesLines;
  }

  lemma ModifyHeaders(dn: string)
    requires Base64.IsBytes(dn)
    ensures Named(AttributeLine("dn", dn), "dn") && ParseLine(AttributeLine("dn", dn)).value.value == dn
    ensures FieldLine(AttributeLine("changetype", "modify"), "changetype")
    ensures ParseLine(AttributeLine("changetype", "modify")).value.value == "modify"
    ensures ToLower("modify") == "modify" && EqualFold("modify", "modify")
  {
    KeywordsAreDescriptions();
    hide AttributeLine, ParseLine, ValidDescription;
    FieldRead("dn", dn);
    ChangeTypeRead("modify");
  }

  lemma ChangesNotEmpty(names: Names, dn: string, changes: seq<Change>)
    requires ValidOperation(names, dn, Modify(changes))
    ensures |ChangesLines(changes)| > 0
  {
    hide AttributeLine;
  }

  lemma ModifyDNRead(names: Names, dn: string, request: Request, controls: seq<Control>, allowContentAdd: bool)
    requires request.ModifyDN? && Base64.IsBytes(dn) && BytesIn(request) && ValidOperation(names, dn, request)
    ensures ParseChange(names, [AttributeLine("dn", dn)] + RequestLines(request), controls, allowContentAdd) ==
            Parsed(Operation(dn, request, controls))
  {
    KeywordsAreDescriptions();
    hide AttributeLine, ParseLine, ValidDescription, EqualFold, ParseModify, ValidOperation;
    var dnLine, typeLine := AttributeLine("dn", dn), AttributeLine("changetype", "moddn");
    var lines := [dnLine] + RequestLines(request);
    FieldRead("dn", dn);
    ChangeTypeRead("moddn");
    assert ToLower("moddn") == "moddn";
    FieldRead("newrdn", request.newRDN);
    FieldRead("deleteoldrdn", if request.deleteOldRDN then "1" else "0");
    FieldRead("newsuperior", request.newSuperior);
    hide FieldLine, Named;
    assert ParseModifyDN(lines) == ReadRecord(dn, request);
  }

  lemma RequestRead(names: Names, op: Operation, allowContentAdd: bool)
    requires Writable(names, op)
    ensures ParseChange(names, [AttributeLine("dn", op.dn)] + RequestLines(op.request), op.controls, allowContentAdd) ==
            Parsed(op)
  {
    match op.request
    case Modify(changes) =>
      WritableChanges(names, op);
      ModifyRead(names, op.dn, changes, op.controls, allowContentAdd);
    case ModifyDN(_, _, _) =>
      ModifyDNRead(names, op.dn, op.request, op.controls, allowContentAdd);
  }

  lemma RequestStart(request: Request)
    ensures RequestLines(request) != [] && !Named(RequestLines(request)[0], "control")
  {
    hide AttributeLine, Named;
    ChangeTypeRead(if request.Modify? then "modify" else "moddn");
  }

  /**
   * The lines of an operation are read back as that operation, with its controls,
   * exactly when no value line of a modification is named "control".
   */
  lemma OperationReadBack(names: Names, op: Operation, allowContentAdd: bool)
    requires Writable(names, op)
    ensures ParseOperation(names, Lines(op), allowContentAdd) ==
            if Clashes(op.request) then Rejected else Parsed(op)
  {
    hide AttributeLine, ControlLines, RequestLines, Clashes, HasControlLine, ParseChange, ScanValues, TakeControls,
         AllOrdinary, WritableControl, ValidOperation, Named, Lines, Base64.IsBytes, BytesIn;
    LinesOrdinary(names, op);
    ScanOrdinary(Lines(op));
    RequestLinesOrdinary(names, op);
    RequestStart(op.request);
    LinesParts(op);
    ControlLinesRead(op.controls, RequestLines(op.request));
    RequestRead(names, op, allowContentAdd);
  }

  lemma LinesParts(op: Operation)
    ensures Lines(op) != [] && Lines(op)[0] == AttributeLine("dn", op.dn)
    ensures Lines(op)[1..] == ControlLines(op.controls) + RequestLines(op.request)
  {
    hide AttributeLine, ControlLines, RequestLines;
  }

  // ----- one record, as text -----

  lemma {:induction false} LinesUnfold(lines: seq<string>, u: Unfolding)
    requires forall i :: 0 <= i < |lines| ==> Clean(lines[i])
    ensures UnfoldFrom(FoldAll(lines), u) == Some(Flush(u) + lines)
    decreases |lines|
  {
    hide Clean, Fold, UnfoldFrom, Flush;
    if lines == [] {
      UnfoldNothing(u);
      assert Flush(u) + lines == Flush(u);
    } else {
      var line, rest := lines[0], lines[1..];
      var next := Unfolding(Flush(u), line, false);
      assert Clean(line);
      CleanFacts(line);
      assert FoldAll(lines) == Fold(line, LINE_WIDTH, true) + FoldAll(rest);
      hide FoldAll;
      FoldUnfolds(line, LINE_WIDTH, true, FoldAll(rest), u);
      LinesUnfold(rest, next);
      FlushNext(u, line, rest);
      assert lines == [line] + rest;
    }
  }

  lemma FlushNext(u: Unfolding, line: string, rest: seq<string>)
    requires line != ""
    ensures Flush(Unfolding(Flush(u), line, false)) + rest == Flush(u) + ([line] + rest)
  {
  }

  lemma CleanFacts(line: string)
    requires Clean(line)
    ensures line != "" && Printable(line)
  {
  }

  /** A physical line of a record: not blank, kept as it is by the splitter, and short. */
  predicate Solid(physical: string) {
    physical != "" && OneLine(physical) && DropCR(physical) == physical && |physical| <= LINE_WIDTH
  }

  lemma {:induction false} FoldAllSolid(lines: seq<string>)
    requires forall i :: 0 <= i < |lines| ==> Clean(lines[i])
    ensures forall i :: 0 <= i < |FoldAll(lines)| ==> Solid(FoldAll(lines)[i])
    decreases |lines|
  {
    hide Fold;
    if lines != [] {
      var physical := Fold(lines[0], LINE_WIDTH, true);
      assert Clean(lines[0]);
      FoldLinesClean(lines[0], LINE_WIDTH, true);
      forall i | 0 <= i < |physical| ensures Solid(physical[i]) { PrintableLine(physical[i]); }
      hide Solid, Clean;
      FoldAllSolid(lines[1..]);
    }
  }

  lemma RecordUnfolds(names: Names, op: Operation)
    requires Writable(names, op)
    ensures Unfold(RecordText(op)) == Some(Lines(op))
  {
    LinesOrdinary(names, op);
    hide Lines, Writable, Inline, Clean;
    var physical := FoldAll(Lines(op));
    FoldAllSolid(Lines(op));
    assert forall i :: 0 <= i < |physical| ==> Solid(physical[i]) ==> OneLine(physical[i]);
    LinesReadBack(physical, "");
    assert JoinLines(physical) + "" == JoinLines(physical) && physical + [] == physical;
    LinesUnfold(Lines(op), Unfolding([], "", false));
    assert [] + Lines(op) == Lines(op);
  }

  /** The record of an operation parses to that operation, or is rejected when a value line is named "control". */
  lemma RecordReadBack(names: Names, op: Operation, allowContentAdd: bool, state: ParseState)
    requires Writable(names, op)
    ensures ParseRecord(names, RecordText(op), allowContentAdd, state) ==
            RecordParse(if Clashes(op.request) then Rejected else Parsed(op), state.(sawOperation := true))
  {
    hide RecordText, AttributeLine, ParseLine, ValidDescription, EqualFold, Clashes, ParseOperation, Unfold,
         ControlLines, RequestLines, ValidOperation;
    assert Lines(op)[0] == AttributeLine("dn", op.dn);
    RecordUnfolds(names, op);
    OperationReadBack(names, op, allowContentAdd);
    KeywordsAreDescriptions();
    KeywordsNotControl();
    FieldRead("dn", op.dn);
    NotNamed("dn", op.dn, "version");
  }

  // ----- many records -----

  function PrintAll(ops: seq<Operation>): string {
    if ops == [] then "" else Print(ops[0]) + PrintAll(ops[1..])
  }

  /** The physical lines of the whole file: each record and the blank line behind it. */
  function FileLines(ops: seq<Operation>): seq<string> {
    if ops == [] then [] else FoldAll(Lines(ops[0])) + [""] + FileLines(ops[1..])
  }

  /** The raw records the splitter should find when it has already passed `number` lines. */
  function RawRecords(ops: seq<Operation>, number: nat): seq<RawRecord> {
    if ops == [] then []
    else [RawRecord(number + 1, RecordText(ops[0]))] + RawRecords(ops[1..], number + |FoldAll(Lines(ops[0]))| + 1)
  }

  predicate AllWritable(names: Names, ops: seq<Operation>) {
    forall i :: 0 <= i < |ops| ==> Writable(names, ops[i])
  }

  lemma RecordLinesSolid(names: Names, op: Operation)
    requires Writable(names, op)
    ensures forall i :: 0 <= i < |FoldAll(Lines(op))| ==> Solid(FoldAll(Lines(op))[i])
    ensures FoldAll(Lines(op)) != []
  {
    LinesOrdinary(names, op);
    hide Writable, Inline, Clean, Solid, AttributeLine, ControlLines, RequestLines;
    FoldAllSolid(Lines(op));
    assert Ordinary(Lines(op)[0]);
    CleanFacts(Lines(op)[0]);
  }

  lemma {:induction false} FilePhysical(names: Names, ops: seq<Operation>)
    requires AllWritable(names, ops)
    ensures PhysicalLines(PrintAll(ops)) == FileLines(ops)
    decreases |ops|
  {
    hide Writable, Lines, FoldAll, JoinLines, PhysicalLines, DropCR;
    if ops == [] {
      NothingPhysical();
    } else {
      assert Writable(names, ops[0]);
      var physical, rest := FoldAll(Lines(ops[0])), PrintAll(ops[1..]);
      RecordLinesSolid(names, ops[0]);
      assert forall i :: 0 <= i < |physical| ==> Solid(physical[i]) ==> OneLine(physical[i]);
      assert PrintAll(ops) == JoinLines(physical) + ("\n" + rest);
      hide Solid, OneLine;
      LinesReadBack(physical, "\n" + rest);
      assert "" + "\n" + rest == "\n" + rest;
      FirstLine("", rest);
      FilePhysical(names, ops[1..]);
      assert physical + ([""] + FileLines(ops[1..])) == FileLines(ops);
    }
  }

  lemma NothingPhysical()
    ensures PhysicalLines("") == []
  {
  }

  /** The splitter after it has added these lines to the record it is building. */
  function Accumulated(s: Splitting, physical: seq<string>): Splitting {
    s.(current := s.current + JoinLines(physical), lineNumber := s.lineNumber + |physical|,
       startLine := if s.current == "" && physical != [] then s.lineNumber + 1 else s.startLine)
  }

  lemma JoinOne(line: string)
    ensures JoinLines([line]) == line + "\n"
  {
    JoinCons(line, []);
    assert [line] + [] == [line];
    assert line + "\n" + "" == line + "\n";
  }

  lemma AccumulatedCons(s: Splitting, line: string, rest: seq<string>)
    ensures Accumulated(Accumulated(s, [line]), rest) == Accumulated(s, [line] + rest)
  {
    JoinOne(line);
    JoinCons(line, rest);
    hide JoinLines;
    assert s.current + (line + "\n") + JoinLines(rest) == s.current + (line + "\n" + JoinLines(rest));
  }

  lemma SplitSolid(line: string, more: seq<string>, s: Splitting)
    requires Solid(line) && |s.current| + |line| + 1 <= MAX_RECORD
    ensures SplitLines([line] + more, s) == SplitLines(more, Accumulated(s, [line]))
  {
    JoinOne(line);
    hide DropCR, JoinLines;
    assert ([line] + more)[1..] == more;
    assert s.current + (line + "\n") == s.current + line + "\n";
  }

  lemma {:induction false} SplitAccumulates(physical: seq<string>, more: seq<string>, s: Splitting)
    requires forall i :: 0 <= i < |physical| ==> Solid(physical[i])
    requires |s.current| + |JoinLines(physical)| <= MAX_RECORD
    ensures SplitLines(physical + more, s) == SplitLines(more, Accumulated(s, physical))
    decreases |physical|
  {
    if physical == [] {
      assert physical + more == more && s.current + JoinLines([]) == s.current;
      assert Accumulated(s, []) == s;
    } else {
      hide SplitLines, Solid, JoinLines, Accumulated;
      var line, rest := physical[0], physical[1..];
      assert Solid(line);
      assert physical == [line] + rest && physical + more == [line] + (rest + more);
      JoinCons(line, rest);
      AccumulatedCons(s, line, rest);
      SplitSolid(line, rest + more, s);
      AccumulatedSize(s, line);
      SplitAccumulates(rest, more, Accumulated(s, [line]));
    }
  }

  lemma AccumulatedSize(s: Splitting, line: string)
    ensures |Accumulated(s, [line]).current| == |s.current| + |line| + 1
  {
    JoinOne(line);
  }

  lemma SplitBlank(more: seq<string>, s: Splitting)
    requires s.current != "" && |s.records| < MAX_RECORDS
    ensures SplitLines([""] + more, s) ==
            SplitLines(more, Splitting(s.records + [RawRecord(s.startLine, s.current)], "", s.lineNumber + 1,
                                       s.lineNumber + 2))
  {
    var lines := [""] + more;
    assert lines[0] == "" && lines[1..] == more && DropCR("") == "";
    hide DropCR;
  }

  predicate RecordsFit(ops: seq<Operation>) {
    forall i :: 0 <= i < |ops| ==> |RecordText(ops[i])| <= MAX_RECORD
  }

  lemma {:induction false} FileSplits(names: Names, ops: seq<Operation>, records: seq<RawRecord>, number: nat)
    requires AllWritable(names, ops) && RecordsFit(ops) && |records| + |ops| <= MAX_RECORDS
    ensures SplitLines(FileLines(ops), Splitting(records, "", number, number + 1)) ==
            Records(records + RawRecords(ops, number))
    decreases |ops|
  {
    hide Writable, Lines, FoldAll, JoinLines, Solid, SplitLines;
    if ops == [] {
      assert records + RawRecords(ops, number) == records;
      SplitNothing(records, number);
    } else {
      var op, rest := ops[0], ops[1..];
      assert Writable(names, op) && |RecordText(op)| <= MAX_RECORD;
      var physical := FoldAll(Lines(op));
      FileLinesCons(ops);
      RawRecordsCons(ops, records, number);
      RecordLinesSolid(names, op);
      SplitOne(physical, FileLines(rest), records, number);
      hide RawRecords, FileLines;
      FileSplits(names, rest, records + [RawRecord(number + 1, RecordText(op))], number + |physical| + 1);
    }
  }

  lemma FileLinesCons(ops: seq<Operation>)
    requires ops != []
    ensures FileLines(ops) == FoldAll(Lines(ops[0])) + ([""] + FileLines(ops[1..]))
  {
    hide FoldAll, Lines;
  }

  lemma RawRecordsCons(ops: seq<Operation>, records: seq<RawRecord>, number: nat)
    requires ops != []
    ensures records + RawRecords(ops, number) ==
            records + [RawRecord(number + 1, RecordText(ops[0]))] +
            RawRecords(ops[1..], number + |FoldAll(Lines(ops[0]))| + 1)
  {
    hide FoldAll, Lines, RecordText;
  }

  lemma SplitNothing(records: seq<RawRecord>, number: nat)
    ensures SplitLines([], Splitting(records, "", number, number + 1)) == Records(records)
  {
  }

  /** The lines of one record and the blank behind it. */
  lemma SplitOne(physical: seq<string>, more: seq<string>, records: seq<RawRecord>, number: nat)
    requires forall i :: 0 <= i < |physical| ==> Solid(physical[i])
    requires physical != [] && |JoinLines(physical)| <= MAX_RECORD && |records| < MAX_RECORDS
    ensures SplitLines(physical + ([""] + more), Splitting(records, "", number, number + 1)) ==
            SplitLines(more, Splitting(records + [RawRecord(number + 1, JoinLines(physical))], "",
                                       number + |physical| + 1, number + |physical| + 2))
  {
    hide *;
    var s := Splitting(records, "", number, number + 1);
    AccumulatedRecord(physical, records, number);
    SplitAccumulates(physical, [""] + more, s);
    SplitBlank(more, Accumulated(s, physical));
  }

  lemma AccumulatedRecord(physical: seq<string>, records: seq<RawRecord>, number: nat)
    requires physical != []
    ensures JoinLines(physical) != ""
    ensures Accumulated(Splitting(records, "", number, number + 1), physical) ==
            Splitting(records, JoinLines(physical), number + |physical|, number + 1)
  {
    RecordNotEmpty(physical);
    EmptyFront(JoinLines(physical));
    hide JoinLines;
  }

  lemma EmptyFront(text: string)
    ensures "" + text == text
  {
  }

  lemma RecordNotEmpty(physical: seq<string>)
    requires physical != []
    ensures JoinLines(physical) != ""
  {
  }

  /** What the command makes of the records in turn. */
  function ParseAll(names: Names, records: seq<RawRecord>, allowContentAdd: bool, state: ParseState): seq<Parsed>
    decreases |records|
  {
    if records == [] then []
    else
      var first := ParseRecord(names, records[0].raw, allowContentAdd, state);
      [first.result] + ParseAll(names, records[1..], allowContentAdd, first.state)
  }

  lemma {:induction false} RecordsParse(names: Names, ops: seq<Operation>, number: nat, allowContentAdd: bool,
                                        state: ParseState)
    requires AllWritable(names, ops)
    ensures var results := ParseAll(names, RawRecords(ops, number), allowContentAdd, state);
            |results| == |ops| &&
            forall i :: 0 <= i < |ops| ==> results[i] == if Clashes(ops[i].request) then Rejected else Parsed(ops[i])
    decreases |ops|
  {
    hide Writable, RecordText, ParseRecord, Clashes, FoldAll, Lines;
    if ops != [] {
      assert Writable(names, ops[0]);
      RecordReadBack(names, ops[0], allowContentAdd, state);
      RecordsParse(names, ops[1..], number + |FoldAll(Lines(ops[0]))| + 1, allowContentAdd,
                   state.(sawOperation := true));
    }
  }

  /**
   * Any failure file within the size limits is split into one record per
   * operation, and record i parses to operation i with its controls, in order;
   * the only records that do not are those in which a modification writes values
   * of an attribute named "control", and these are rejected.
   */
  lemma FailureFileReplays(names: Names, ops: seq<Operation>, allowContentAdd: bool, state: ParseState)
    requires AllWritable(names, ops) && RecordsFit(ops)
    requires |ops| <= MAX_RECORDS && |PrintAll(ops)| <= MAX_INPUT
    ensures SplitRecords(PrintAll(ops)).Records?
    ensures var results := ParseAll(names, SplitRecords(PrintAll(ops)).records, allowContentAdd, state);
            |results| == |ops| &&
            forall i :: 0 <= i < |ops| ==> results[i] == if Clashes(ops[i].request) then Rejected else Parsed(ops[i])
  {
    hide Writable, RecordText, PhysicalLines, SplitLines, ParseAll, FileLines, PrintAll, RawRecords;
    FilePhysical(names, ops);
    FileSplits(names, ops, [], 0);
    assert [] + RawRecords(ops, 0) == RawRecords(ops, 0);
    RecordsParse(names, ops, 0, allowContentAdd, state);
  }

  /** An operation that does not replay: deleting a value of an attribute named "control". */
  lemma ControlAttributeDoesNotReplay(names: Names, dn: string, state: ParseState)
    requires names.validDN(dn) && Base64.IsBytes(dn)
    ensures var op := Operation(dn, Modify([Change(Delete, "control", ["x"])]), []);
            Writable(names, op) && ParseRecord(names, RecordText(op), false, state).result == Rejected
  {
    KeywordsAreDescriptions();
    EqualFoldSelf("control");
    hide ParseRecord, RecordText, ValidDescription, EqualFold;
    var change := Change(Delete, "control", ["x"]);
    var op := Operation(dn, Modify([change]), []);
    assert ControlClash(op.request.changes[0]);
    RecordReadBack(names, op, false, state);
  }
}
