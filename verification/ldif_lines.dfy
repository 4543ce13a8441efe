/** LDIF lines: folding on output, record splitting and unfolding on input (RFC 2849). */
module LdifLines {
  import opened Text

  const LINE_WIDTH: nat := 78
  const MAX_LINE: nat := 0x10_0000          // 1 MiB
  const MAX_RECORD: nat := 0x80_0000        // 8 MiB
  const MAX_INPUT: nat := 0x400_0000        // 64 MiB
  const MAX_RECORDS: nat := 100_000
  const NO_WRAP: nat := 0xFFFF_FFFF_FFFF_FFFF

  class TextWriter {
    var output: string

    method Write(text: string)
      modifies this
      ensures output == old(output) + text
    {
      output := output + text;
    }
  }

  // ----- physical lines -----

  /** Text made of lines that each end in a newline. */
  function JoinLines(lines: seq<string>): string {
    if lines == [] then "" else lines[0] + "\n" + JoinLines(lines[1..])
  }

  /** The lines a reader sees: the newline-terminated ones and a non-empty rest. */
  function PhysicalLines(text: string): (lines: seq<string>)
    decreases |text|
  {
    if text == "" then []
    else
      var size := IndexOf(text, '\n');
      if size == |text| then [text] else [text[..size]] + PhysicalLines(text[size + 1..])
  }

  predicate OneLine(s: string) { forall i :: 0 <= i < |s| ==> s[i] != '\n' }

  lemma FirstLine(line: string, rest: string)
    requires OneLine(line)
    ensures PhysicalLines(line + "\n" + rest) == [line] + PhysicalLines(rest)
  {
    var text := line + "\n" + rest;
    var size := IndexOf(text, '\n');
    assert text[|line|] == '\n' && forall i :: 0 <= i < |line| ==> text[i] == line[i];
    assert size == |line|;
    assert text[..size] == line && text[size + 1..] == rest;
  }

  lemma {:induction false} LinesReadBack(lines: seq<string>, rest: string)
    requires forall i :: 0 <= i < |lines| ==> OneLine(lines[i])
    ensures PhysicalLines(JoinLines(lines) + rest) == lines + PhysicalLines(rest)
    decreases |lines|
  {
    hide PhysicalLines, IndexOf;
    if lines == [] {
      assert JoinLines(lines) + rest == rest;
    } else {
      var more := JoinLines(lines[1..]) + rest;
      assert JoinLines(lines) + rest == lines[0] + "\n" + more;
      FirstLine(lines[0], more);
      LinesReadBack(lines[1..], rest);
      assert lines == [lines[0]] + lines[1..];
    }
  }

  lemma {:induction false} JoinLinesAppend(a: seq<string>, b: seq<string>)
    ensures JoinLines(a + b) == JoinLines(a) + JoinLines(b)
    decreases |a|
  {
    if a == [] {
      assert a + b == b;
    } else {
      assert (a + b)[1..] == a[1..] + b;
      JoinLinesAppend(a[1..], b);
    }
  }

  // ----- folding at the default width -----

  /** The physical lines of one logical line, or of its rest when `first` is false. */
  function Fold(line: string, width: nat, first: bool): (lines: seq<string>)
    requires width >= 2
    decreases |line|
  {
    if line == "" then (if first then [""] else [])
    else
      var room := if first then width else width - 1;
      var size := if room > |line| then |line| else room;
      [(if first then "" else " ") + line[..size]] + Fold(line[size..], width, false)
  }

  /** writeFoldedLDIFLineWithWidth. */
  method WriteFoldedLine(writer: TextWriter, text: string, lineWidth: nat)
    requires lineWidth >= 2
    modifies writer
    ensures writer.output == old(writer.output) + JoinLines(Fold(text, lineWidth, true))
  {
    var first := true;
    var line := text;
    while |line| > 0
      invariant writer.output + JoinLines(Fold(line, lineWidth, first)) ==
                old(writer.output) + JoinLines(Fold(text, lineWidth, true))
      invariant first ==> line == text
      decreases |line|
    {
      var width := lineWidth;
      ghost var before, remaining := writer.output, line;
      if !first {
        writer.Write(" ");
        width := width - 1;
      }
      if width > |line| { width := |line|; }
      writer.Write(line[..width]);
      writer.Write("\n");
      line := line[width..];
      FoldOnce(remaining, lineWidth, first, before);
      first := false;
    }
    if first {
      writer.Write("\n");
      assert JoinLines(Fold("", lineWidth, true)) == "\n";
    } else {
      assert JoinLines(Fold("", lineWidth, false)) == "";
    }
  }

  lemma FoldOnce(line: string, width: nat, first: bool, before: string)
    requires line != "" && width >= 2
    ensures var room := if first then width else width - 1;
            var size := if room > |line| then |line| else room;
            before + JoinLines(Fold(line, width, first)) ==
            (if first then before else before + " ") + line[..size] + "\n" + JoinLines(Fold(line[size..], width, false))
  {
    var room := if first then width else width - 1;
    var size := if room > |line| then |line| else room;
    var mark := if first then "" else " ";
    var rest := Fold(line[size..], width, false);
    assert Fold(line, width, first) == [mark + line[..size]] + rest;
    hide Fold;
    JoinCons(mark + line[..size], rest);
    hide JoinLines;
    assert before + (mark + line[..size] + "\n" + JoinLines(rest)) ==
      (if first then before else before + " ") + line[..size] + "\n" + JoinLines(rest);
  }

  lemma JoinCons(line: string, more: seq<string>)
    ensures JoinLines([line] + more) == line + "\n" + JoinLines(more)
  {
    assert ([line] + more)[1..] == more;
  }

  // ----- folding at a configured width -----

  /**
   * The physical lines still to come when `current` is being written: each is
   * filled up to the width, later ones start with a space.
   */
  function Wrap(current: string, value: string, width: nat): (lines: seq<string>)
    requires width >= 1
    ensures lines != []
    decreases |value|
  {
    if value == "" then [current]
    else if |current| >= width then
      var size := Room(|value|, 1, width);
      [current] + Wrap(" " + value[..size], value[size..], width)
    else
      var size := Room(|value|, |current|, width);
      Wrap(current + value[..size], value[size..], width)
  }

  /** min(len(value), max(width - column, 1)), on unsigned operands with column <= width. */
  function Room(size: nat, column: nat, width: nat): (r: nat)
    requires column <= width && size > 0
    ensures 1 <= r <= size
  {
    var room := if width - column > 1 then width - column else 1;
    if size < room then size else room
  }

  /** ldapLDIFWidthWriter.writeLine; its unsigned subtraction never goes below zero and it ends. */
  method WriteWrappedLine(writer: TextWriter, line: string, prefix: nat, configured: nat, preencoded: bool)
    requires prefix <= |line| && 1 <= configured <= NO_WRAP
    modifies writer
    ensures writer.output == old(writer.output) +
            JoinLines(Wrap(line[..prefix], line[prefix..], EffectiveWidth(configured, preencoded)))
  {
    hide Wrap, JoinLines;
    writer.Write(line[..prefix]);
    var width := configured;
    if preencoded && width != NO_WRAP { width := width + 1; }
    ghost var done, current := old(writer.output), line[..prefix];
    var column := prefix;
    var value := line[prefix..];
    while |value| != 0
      invariant column == |current| && writer.output == done + current
      invariant done + JoinLines(Wrap(current, value, width)) ==
                old(writer.output) + JoinLines(Wrap(line[..prefix], line[prefix..], width))
      decreases |value|
    {
      WrapOnce(current, value, width, done);
      if column >= width {
        writer.Write("\n ");
        column := 1;
        done, current := done + current + "\n", " ";
      }
      var length := Room(|value|, column, width);
      writer.Write(value[..length]);
      current := current + value[..length];
      value := value[length..];
      column := column + length;
    }
    WrapEnd(current, width);
    writer.Write("\n");
  }

  lemma WrapEnd(current: string, width: nat)
    requires width >= 1
    ensures JoinLines(Wrap(current, "", width)) == current + "\n"
  {
  }

  function EffectiveWidth(configured: nat, preencoded: bool): nat {
    if preencoded && configured != NO_WRAP then configured + 1 else configured
  }

  lemma WrapOnce(current: string, value: string, width: nat, done: string)
    requires width >= 1 && value != ""
    ensures var column := if |current| >= width then 1 else |current|;
            var size := Room(|value|, column, width);
            var shown := if |current| >= width then done + current + "\n" else done;
            var next := if |current| >= width then " " else current;
            done + JoinLines(Wrap(current, value, width)) ==
            shown + JoinLines(Wrap(next + value[..size], value[size..], width))
  {
    if |current| >= width {
      var size := Room(|value|, 1, width);
      var rest := Wrap(" " + value[..size], value[size..], width);
      assert ([current] + rest)[1..] == rest;
    }
  }

  /** Where writeLDAPLDIFConfiguredLine lets folding begin: behind the attribute prefix or "# ". */
  function PrefixLength(line: string): (n: nat)
    ensures n <= |line|
  {
    if IsComment(line) then 2
    else
      var colon := IndexOf(line, ':');
      if colon == |line| then |line|
      else
        var afterColon := colon + 1;
        var afterMark :=
          if afterColon < |line| && (line[afterColon] == ':' || line[afterColon] == '<') then afterColon + 1
          else afterColon;
        if afterMark < |line| && line[afterMark] == ' ' then afterMark + 1 else afterMark
  }

  predicate IsComment(line: string) { |line| >= 2 && line[..2] == "# " }

  /** The physical lines of a line at a configured width; comments may be one longer, like text already encoded. */
  function ConfiguredLines(line: string, configured: nat, preencoded: bool): seq<string>
    requires configured >= 1
  {
    var prefix := PrefixLength(line);
    Wrap(line[..prefix], line[prefix..], EffectiveWidth(configured, preencoded || IsComment(line)))
  }

  /** writeLDAPLDIFConfiguredLine with a configured width. */
  method WriteConfiguredLine(writer: TextWriter, line: string, configured: nat, preencoded: bool)
    requires 1 <= configured <= NO_WRAP
    modifies writer
    ensures writer.output == old(writer.output) + JoinLines(ConfiguredLines(line, configured, preencoded))
  {
    var prefix, encoded := |line|, preencoded;
    if IsComment(line) {
      prefix, encoded := 2, true;
    } else {
      var colon := IndexOf(line, ':');
      if colon < |line| {
        prefix := colon + 1;
        if prefix < |line| && (line[prefix] == ':' || line[prefix] == '<') { prefix := prefix + 1; }
        if prefix < |line| && line[prefix] == ' ' { prefix := prefix + 1; }
      }
    }
    WriteWrappedLine(writer, line, prefix, configured, encoded);
  }

  // ----- unfolding -----

  function DropCR(s: string): string {
    if s != "" && s[|s| - 1] == '\r' then s[..|s| - 1] else s
  }

  /** bufio.ScanLines drops one carriage return and the caller another. */
  function WithoutReturns(line: string): string { DropCR(DropCR(line)) }

  datatype Unfolding = Unfolding(lines: seq<string>, current: string, comment: bool)

  function Flush(u: Unfolding): seq<string> {
    if u.current != "" then u.lines + [u.current] else u.lines
  }

  /** One physical line; None when it is too long for the scanner or continues nothing. */
  function UnfoldLine(physical: string, u: Unfolding): Option<Unfolding> {
    var line := WithoutReturns(physical);
    if |physical| >= MAX_LINE then None
    else if line == "" then Some(u)
    else if line[0] == '#' then Some(u.(comment := true))
    else if line[0] != ' ' then Some(Unfolding(Flush(u), line, false))
    else if u.comment then Some(u)
    else if u.current == "" then None
    else Some(u.(current := u.current + line[1..]))
  }

  function UnfoldFrom(physical: seq<string>, u: Unfolding): Option<seq<string>>
    decreases |physical|
  {
    if physical == [] then Some(Flush(u))
    else
      match UnfoldLine(physical[0], u)
      case None => None
      case Some(next) => UnfoldFrom(physical[1..], next)
  }

  /** The logical lines of a record. */
  function Unfold(raw: string): Option<seq<string>> {
    UnfoldFrom(PhysicalLines(raw), Unfolding([], "", false))
  }

  /** logicalLDAPWriteLines. */
  method LogicalLines(raw: string) returns (result: Option<seq<string>>)
    ensures result == Unfold(raw)
  {
    var scanned := PhysicalLines(raw);
    var lines: seq<string> := [];
    var current, comment := "", false;
    hide PhysicalLines, WithoutReturns;
    for index := 0 to |scanned|
      invariant UnfoldFrom(scanned[index..], Unfolding(lines, current, comment)) == Unfold(raw)
    {
      assert scanned[index..][1..] == scanned[index + 1..];
      if |scanned[index]| >= MAX_LINE { return None; }
      var line := WithoutReturns(scanned[index]);
      if line == "" { continue; }
      if line[0] == '#' {
        comment := true;
        continue;
      }
      if line[0] == ' ' {
        if comment { continue; }
        if current == "" { return None; }
        current := current + line[1..];
      } else {
        comment := false;
        if current != "" { lines := lines + [current]; }
        current := line;
      }
    }
    if current != "" { lines := lines + [current]; }
    result := Some(lines);
  }

  // ----- splitting into records -----

  datatype RawRecord = RawRecord(line: nat, raw: string)

  datatype Split = Records(records: seq<RawRecord>) | InputTooLarge | LineTooLong | RecordTooLarge | TooManyRecords

  datatype Splitting = Splitting(records: seq<RawRecord>, current: string, lineNumber: nat, startLine: nat)

  function SplitLines(lines: seq<string>, s: Splitting): Split
    decreases |lines|
  {
    if lines == [] then
      if s.current == "" then Records(s.records)
      else if |s.records| >= MAX_RECORDS then TooManyRecords
      else Records(s.records + [RawRecord(s.startLine, s.current)])
    else
      var number := s.lineNumber + 1;
      var physical := DropCR(lines[0]);
      if |physical| > MAX_LINE then LineTooLong
      else if physical == "" then
        if s.current == "" then SplitLines(lines[1..], s.(lineNumber := number, startLine := number + 1))
        else if |s.records| >= MAX_RECORDS then TooManyRecords
        else SplitLines(lines[1..],
                        Splitting(s.records + [RawRecord(s.startLine, s.current)], "", number, number + 1))
      else if |s.current| + |physical| + 1 > MAX_RECORD then RecordTooLarge
      else SplitLines(lines[1..], s.(current := s.current + physical + "\n", lineNumber := number,
                                     startLine := if s.current == "" then number else s.startLine))
  }

  function SplitRecords(input: string): Split {
    if |input| > MAX_INPUT then InputTooLarge
    else SplitLines(PhysicalLines(input), Splitting([], "", 0, 1))
  }

  /** splitLDAPWriteRecordsWithLines. */
  method SplitRecordsWithLines(input: string) returns (result: Split)
    ensures result == SplitRecords(input)
  {
    if |input| > MAX_INPUT { return InputTooLarge; }
    var lines := PhysicalLines(input);
    var records: seq<RawRecord> := [];
    var current, lineNumber, startLine := "", 0, 1;
    for index := 0 to |lines|
      invariant lineNumber >= 0 && startLine >= 0
      invariant SplitLines(lines[index..], Splitting(records, current, lineNumber, startLine)) == SplitRecords(input)
    {
      assert lines[index..][1..] == lines[index + 1..];
      lineNumber := lineNumber + 1;
      var physical := DropCR(lines[index]);
      if |physical| > MAX_LINE { return LineTooLong; }
      if |physical| == 0 {
        if |current| != 0 {
          if |records| >= MAX_RECORDS { return TooManyRecords; }
          records := records + [RawRecord(startLine, current)];
          current := "";
        }
        startLine := lineNumber + 1;
      } else {
        if |current| == 0 { startLine := lineNumber; }
        if |current| + |physical| + 1 > MAX_RECORD { return RecordTooLarge; }
        current := current + physical + "\n";
      }
    }
    if |current| != 0 {
      if |records| >= MAX_RECORDS { return TooManyRecords; }
      records := records + [RawRecord(startLine, current)];
    }
    result := Records(records);
  }
}
