/** Operations that were read from a file: every one of them can be written and read again. */
module LdifAccepted {
  import opened Text
  import opened LdifLines
  import opened LdifFolding
  import opened LdifRecords
  import opened LdifParse
  import opened LdifRoundTrip
  import opened LdifFile
  import opened LdifReplay
  import Base64

  // ----- decoding -----

  /** What decodes is a byte string, and encoding it again takes no more room. */
  lemma {:induction false} QuantaDecoded(s: string, strict: bool)
    requires Base64.DecodeQuanta(s, strict).Some?
    ensures Base64.IsBytes(Base64.DecodeQuanta(s, strict).value)
    ensures |Base64.Encode(Base64.DecodeQuanta(s, strict).value)| == |s|
    decreases |s|
  {
    hide Base64.Value, Base64.Encode;
    if s != "" && s[2] != '=' && s[3] != '=' { QuantaDecoded(s[4..], strict); }
  }

  lemma {:induction false} BreaksShorten(s: string)
    ensures |Base64.WithoutBreaks(s)| <= |s|
  {
    if s != "" { BreaksShorten(s[1..]); }
  }

  lemma Decoded(s: string, strict: bool)
    requires Base64.Decode(s, strict).Some?
    ensures Base64.IsBytes(Base64.Decode(s, strict).value)
    ensures |Base64.Encode(Base64.Decode(s, strict).value)| <= |s|
  {
    BreaksShorten(s);
    QuantaDecoded(Base64.WithoutBreaks(s), strict);
    hide Base64.DecodeQuanta, Base64.WithoutBreaks, Base64.Encode, Base64.IsBytes;
  }

  // ----- lines of bytes -----

  predicate AllBytes(lines: seq<string>) { forall i :: 0 <= i < |lines| ==> Base64.IsBytes(lines[i]) }

  lemma {:induction false} BlankTrimmedBytes(s: string)
    requires Base64.IsBytes(s)
    ensures Base64.IsBytes(TrimLeftBlank(s)) && Base64.IsBytes(TrimLeftBlanks(s))
  {
    if s != "" { BlankTrimmedBytes(s[1..]); }
  }

  lemma {:induction false} LeftTrimmedBytes(s: string)
    requires Base64.IsBytes(s)
    ensures Base64.IsBytes(TrimLeftSpace(s))
  {
    if s != "" { LeftTrimmedBytes(s[1..]); }
  }

  lemma {:induction false} RightTrimmedBytes(s: string)
    requires Base64.IsBytes(s)
    ensures Base64.IsBytes(TrimRightSpace(s))
  {
    if s != "" { RightTrimmedBytes(s[..|s| - 1]); }
  }

  lemma TrimmedBytes(s: string)
    requires Base64.IsBytes(s)
    ensures Base64.IsBytes(TrimSpace(s))
  {
    LeftTrimmedBytes(s);
    RightTrimmedBytes(TrimLeftSpace(s));
  }

  lemma {:induction false} PhysicalBytes(raw: string)
    requires Base64.IsBytes(raw)
    ensures AllBytes(PhysicalLines(raw))
    decreases |raw|
  {
    var end := IndexOf(raw, '\n');
    if end < |raw| { PhysicalBytes(raw[end + 1..]); }
  }

  predicate UnfoldingBytes(u: Unfolding) { AllBytes(u.lines) && Base64.IsBytes(u.current) }

  lemma FlushBytes(u: Unfolding)
    requires UnfoldingBytes(u)
    ensures AllBytes(Flush(u))
  {
  }

  lemma UnfoldLineBytes(physical: string, u: Unfolding)
    requires Base64.IsBytes(physical) && UnfoldingBytes(u) && UnfoldLine(physical, u).Some?
    ensures UnfoldingBytes(UnfoldLine(physical, u).value)
  {
    FlushBytes(u);
  }

  lemma {:induction false} UnfoldFromBytes(physical: seq<string>, u: Unfolding)
    requires AllBytes(physical) && UnfoldingBytes(u) && UnfoldFrom(physical, u).Some?
    ensures AllBytes(UnfoldFrom(physical, u).value)
    decreases |physical|
  {
    FlushBytes(u);
    hide UnfoldLine, UnfoldingBytes, Base64.IsBytes, Flush;
    if physical != [] {
      UnfoldLineBytes(physical[0], u);
      UnfoldFromBytes(physical[1..], UnfoldLine(physical[0], u).value);
    }
  }

  lemma UnfoldBytes(raw: string)
    requires Base64.IsBytes(raw) && Unfold(raw).Some?
    ensures AllBytes(Unfold(raw).value)
  {
    PhysicalBytes(raw);
    hide PhysicalLines;
    UnfoldFromBytes(PhysicalLines(raw), Unfolding([], "", false));
  }

  lemma ValueBytes(line: string)
    requires Base64.IsBytes(line) && ParseLine(line).Some?
    ensures Base64.IsBytes(ParseLine(line).value.value)
  {
    hide Base64.Decode, ValidDescription, TrimLeftBlank;
    var colon := IndexOf(line, ':');
    var remainder := line[colon + 1..];
    if remainder != "" {
      BlankTrimmedBytes(remainder);
      BlankTrimmedBytes(remainder[1..]);
      if remainder[0] == ':' { Decoded(TrimLeftBlank(remainder[1..]), false); }
    }
  }

  // ----- controls -----

  lemma PlainValueFits(value: string)
    requires |value| <= MAX_RECORD
    ensures |Base64.Encode(value)| <= MAX_CONTROL_TEXT
  {
    assert (|value| + 2) / 3 <= (MAX_RECORD + 2) / 3;
    hide Base64.Encode;
  }

  lemma EncodedValueFits(text: string)
    requires DecodeControl(text).Some?
    ensures Base64.IsBytes(DecodeControl(text).value)
    ensures |Base64.Encode(DecodeControl(text).value)| <= MAX_CONTROL_TEXT
  {
    Decoded(text, true);
    hide Base64.Decode, Base64.Encode, Base64.IsBytes, HasWhitespace;
  }

  lemma ControlValueWritable(oid: string, critical: bool, text: string)
    requires ValidOID(oid) && Base64.IsBytes(text) && ControlValue(oid, critical, text).ReadControl?
    ensures WritableControl(ControlValue(oid, critical, text).control)
  {
    if text != "" { BlankTrimmedBytes(text[1..]); }
    hide ValidOID, DecodeControl, TrimSpace, TrimLeftBlanks, Base64.IsBytes, Base64.Encode, MAX_RECORD,
         MAX_CONTROL_TEXT;
    if |text| >= 2 && text[..2] == "::" {
      EncodedValueFits(TrimSpace(text[2..]));
    } else if text != "" && text[0] == ':' && |TrimLeftBlanks(text[1..])| <= MAX_RECORD {
      PlainValueFits(TrimLeftBlanks(text[1..]));
    }
  }

  lemma ControlWritable(value: string)
    requires Base64.IsBytes(value) && ParseControl(value).ReadControl?
    ensures WritableControl(ParseControl(value).control)
  {
    var text := TrimSpace(value);
    var end := IndexOfBlank(text);
    var oid, remainder := text[..end], TrimSpace(text[end..]);
    TrimmedBytes(value);
    TrimmedBytes(text[end..]);
    var flag := if HasKeyword(remainder, "true") then 4 else if HasKeyword(remainder, "false") then 5 else 0;
    hide TrimSpace, IndexOfBlank, ControlValue, ValidOID, WritableControl;
    if flag == 0 {
      ControlValueWritable(oid, false, remainder);
    } else {
      TrimmedBytes(remainder[flag..]);
      ControlValueWritable(oid, flag == 4, TrimSpace(remainder[flag..]));
    }
  }

  lemma {:induction false} ControlsWritable(lines: seq<string>)
    requires AllBytes(lines) && TakeControls(lines).ReadControls?
    ensures var r := TakeControls(lines);
            AllBytes(r.rest) && forall i :: 0 <= i < |r.controls| ==> WritableControl(r.controls[i])
    decreases |lines|
  {
    hide ParseLine, ParseControl, WritableControl, Base64.IsBytes, EqualFold;
    if lines != [] && Named(lines[0], "control") {
      ValueBytes(lines[0]);
      ControlWritable(ParseLine(lines[0]).value.value);
      ControlsWritable(lines[1..]);
    }
  }

  // ----- changes -----

  /** A line the parser of a change may meet: bytes, and not named "control". */
  predicate Usable(lines: seq<string>) { AllBytes(lines) && !HasControlLine(lines) }

  lemma UsableTail(lines: seq<string>)
    requires Usable(lines) && lines != []
    ensures Usable(lines[1..])
  {
    hide Named, Base64.IsBytes;
    assert forall i :: 0 <= i < |lines[1..]| ==> lines[1..][i] == lines[i + 1];
  }

  lemma {:induction false} ValuesUsable(lines: seq<string>, attribute: string)
    requires Usable(lines) && TakeValues(lines, attribute).ReadValues?
    ensures var r := TakeValues(lines, attribute);
            Usable(r.rest) && AllBytes(r.values) && (r.values != [] ==> !EqualFold(attribute, "control"))
    decreases |lines|
  {
    if lines != [] && lines[0] != "-" {
      UsableTail(lines);
      assert !Named(lines[0], "control");
      hide ParseLine, Base64.IsBytes, ToLower, HasControlLine;
      ValueBytes(lines[0]);
      ValuesUsable(lines[1..], attribute);
    }
  }

  predicate Replayable(changes: seq<Change>) {
    forall i :: 0 <= i < |changes| ==> AllBytes(changes[i].values) && !ControlClash(changes[i])
  }

  lemma {:induction false} ChangesReplayable(lines: seq<string>)
    requires Usable(lines) && ParseChanges(lines).Some?
    ensures Replayable(ParseChanges(lines).value)
    decreases |lines|
  {
    hide ParseLine, ValidDescription, KindOf, TakeValues, Usable, AllBytes, EqualFold;
    if lines != [] {
      var attribute := ParseLine(lines[0]).value.value;
      UsableTail(lines);
      ValuesUsable(lines[1..], attribute);
      var rest := TakeValues(lines[1..], attribute).rest;
      if rest != [] { UsableTail(rest); }
      ChangesReplayable(if rest == [] then [] else rest[1..]);
    }
  }

  lemma ModifyReplayable(lines: seq<string>, explicitChangeType: bool)
    requires lines != [] && Base64.IsBytes(lines[0]) && Usable(lines[1..])
    requires ParseModify(lines, explicitChangeType).ReadRecord?
    ensures var r := ParseModify(lines, explicitChangeType);
            Base64.IsBytes(r.dn) && BytesIn(r.request) && !Clashes(r.request)
  {
    hide ParseLine, EqualFold, ParseChanges, Usable, ControlClash;
    ValueBytes(lines[0]);
    var start := if explicitChangeType then 2 else 1;
    if explicitChangeType {
      UsableTail(lines[1..]);
      assert lines[1..][1..] == lines[2..];
    }
    ChangesReplayable(lines[start..]);
  }

  lemma ModifyDNReplayable(lines: seq<string>)
    requires AllBytes(lines) && ParseModifyDN(lines).ReadRecord?
    ensures var r := ParseModifyDN(lines);
            Base64.IsBytes(r.dn) && BytesIn(r.request) && !Clashes(r.request)
  {
    hide ParseLine, EqualFold, Base64.IsBytes;
    ValueBytes(lines[0]);
    ValueBytes(lines[2]);
    if |lines| == 5 { ValueBytes(lines[4]); }
    assert Base64.IsBytes("") by { NoBytes(); }
  }

  lemma NoBytes()
    ensures Base64.IsBytes("")
  {
  }

  // ----- whole records -----

  /** The operation can be written, and none of its lines is taken for a control. */
  predicate Replays(names: Names, op: Operation) { Writable(names, op) && !Clashes(op.request) }

  lemma ChangeReplays(names: Names, lines: seq<string>, controls: seq<Control>, allowContentAdd: bool)
    requires lines != [] && Base64.IsBytes(lines[0]) && Usable(lines[1..])
    requires forall i :: 0 <= i < |controls| ==> WritableControl(controls[i])
    requires ParseChange(names, lines, controls, allowContentAdd).Parsed?
    ensures Replays(names, ParseChange(names, lines, controls, allowContentAdd).operation)
  {
    hide ParseModify, ParseModifyDN, ValidOperation, WritableControl, Named, ToLower, BytesIn, Clashes, Base64.IsBytes;
    assert AllBytes(lines) by { assert lines == [lines[0]] + lines[1..]; }
    if ParseModifyDN(lines).ReadRecord? { ModifyDNReplayable(lines); }
    if ParseModify(lines, true).ReadRecord? { ModifyReplayable(lines, true); }
    if ParseModify(lines, false).ReadRecord? { ModifyReplayable(lines, false); }
  }

  lemma OperationReplays(names: Names, lines: seq<string>, allowContentAdd: bool)
    requires lines != [] && AllBytes(lines) && ParseOperation(names, lines, allowContentAdd).Parsed?
    ensures Replays(names, ParseOperation(names, lines, allowContentAdd).operation)
  {
    hide ScanValues, HasControlLine, ParseChange, Replays, WritableControl, TakeControls, Base64.IsBytes;
    ControlsWritable(lines[1..]);
    var read := TakeControls(lines[1..]);
    var rest := [lines[0]] + read.rest;
    assert rest[1..] == read.rest;
    ChangeReplays(names, rest, read.controls, allowContentAdd);
  }

  /** Whatever record is accepted, its operation can be written and none of its lines is taken for a control. */
  lemma AcceptedReplays(names: Names, raw: string, allowContentAdd: bool, state: ParseState)
    requires Base64.IsBytes(raw) && ParseRecord(names, raw, allowContentAdd, state).result.Parsed?
    ensures Replays(names, ParseRecord(names, raw, allowContentAdd, state).result.operation)
  {
    UnfoldBytes(raw);
    hide Unfold, ParseOperation, Replays, Named, ParseLine, Base64.IsBytes;
    var lines := Unfold(raw).value;
    OperationReplays(names, if Named(lines[0], "version") then lines[1..] else lines, allowContentAdd);
  }

  /** Every operation the reader accepts is read back from its own record, by any reader in any state. */
  lemma AcceptedReadBack(names: Names, raw: string, allowContentAdd: bool, state: ParseState, again: bool,
                         later: ParseState)
    requires Base64.IsBytes(raw) && ParseRecord(names, raw, allowContentAdd, state).result.Parsed?
    ensures var op := ParseRecord(names, raw, allowContentAdd, state).result.operation;
            ParseRecord(names, RecordText(op), again, later).result == Parsed(op)
  {
    AcceptedReplays(names, raw, allowContentAdd, state);
    hide ParseRecord, RecordText, Writable, Clashes;
    var op := ParseRecord(names, raw, allowContentAdd, state).result.operation;
    RecordReadBack(names, op, again, later);
  }

  // ----- whole files -----

  /** The operation was read from some record. */
  ghost predicate Accepted(names: Names, op: Operation) {
    exists raw, allowContentAdd, state ::
      Base64.IsBytes(raw) && ParseRecord(names, raw, allowContentAdd, state).result == Parsed(op)
  }

  lemma {:induction false} JoinedBytes(physical: seq<string>)
    requires AllBytes(physical)
    ensures Base64.IsBytes(JoinLines(physical))
    decreases |physical|
  {
    if physical != [] {
      JoinedBytes(physical[1..]);
      assert physical == [physical[0]] + physical[1..];
      JoinCons(physical[0], physical[1..]);
    }
  }

  lemma {:induction false} FoldedBytes(lines: seq<string>)
    requires forall i :: 0 <= i < |lines| ==> Clean(lines[i])
    ensures AllBytes(FoldAll(lines))
    decreases |lines|
  {
    if lines != [] {
      hide Fold;
      var physical := Fold(lines[0], LINE_WIDTH, true);
      assert Clean(lines[0]);
      FoldLinesClean(lines[0], LINE_WIDTH, true);
      assert AllBytes(physical);
      FoldedBytes(lines[1..]);
    }
  }

  lemma RecordTextBytes(names: Names, op: Operation)
    requires Writable(names, op)
    ensures Base64.IsBytes(RecordText(op))
  {
    LinesOrdinary(names, op);
    hide Writable, Lines, FoldAll, Inline, Clean, JoinLines, Base64.IsBytes;
    FoldedBytes(Lines(op));
    JoinedBytes(FoldAll(Lines(op)));
  }

  /**
   * The operations the reader can produce are exactly the valid ones in byte strings, with controls of a size it
   * takes, in which no value line is named "control".
   */
  lemma AcceptedExactly(names: Names, op: Operation)
    ensures Accepted(names, op) <==> Writable(names, op) && !Clashes(op.request)
  {
    hide ParseRecord, RecordText, Writable, Clashes, Base64.IsBytes;
    if Accepted(names, op) {
      var raw, allowContentAdd, state :|
        Base64.IsBytes(raw) && ParseRecord(names, raw, allowContentAdd, state).result == Parsed(op);
      AcceptedReplays(names, raw, allowContentAdd, state);
    }
    if Writable(names, op) && !Clashes(op.request) {
      var state := ParseState(false, false);
      RecordTextBytes(names, op);
      RecordReadBack(names, op, false, state);
      assert Base64.IsBytes(RecordText(op)) && ParseRecord(names, RecordText(op), false, state).result == Parsed(op);
    }
  }

  /** A failure file of operations that were read from records, within the size limits, replays without exception. */
  lemma AcceptedFileReplays(names: Names, ops: seq<Operation>, allowContentAdd: bool, state: ParseState)
    requires (forall i :: 0 <= i < |ops| ==> Accepted(names, ops[i])) && RecordsFit(ops)
    requires |ops| <= MAX_RECORDS && |PrintAll(ops)| <= MAX_INPUT
    ensures SplitRecords(PrintAll(ops)).Records?
    ensures var results := ParseAll(names, SplitRecords(PrintAll(ops)).records, allowContentAdd, state);
            |results| == |ops| && forall i :: 0 <= i < |ops| ==> results[i] == Parsed(ops[i])
  {
    hide Accepted, Writable, Clashes, SplitRecords, PrintAll, ParseAll, RecordsFit;
    forall i | 0 <= i < |ops| ensures Writable(names, ops[i]) && !Clashes(ops[i].request) {
      AcceptedExactly(names, ops[i]);
    }
    FailureFileReplays(names, ops, allowContentAdd, state);
  }
}
