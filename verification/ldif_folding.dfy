/** Folding and unfolding are inverse on the lines the writers produce. */
module LdifFolding {
  import opened Text
  import opened LdifLines

  predicate Printable(s: string) { forall i :: 0 <= i < |s| ==> ' ' <= s[i] <= '~' }

  /** A logical line a reader keeps as it is: printable, not a continuation and not a comment. */
  predicate Clean(line: string) {
    line != "" && Printable(line) && line[0] != ' ' && line[0] != '#'
  }

  predicate Fits(lines: seq<string>) { forall i :: 0 <= i < |lines| ==> |lines[i]| < MAX_LINE }

  /** What unfolding has when `text` was the newest physical content of the current line. */
  function Continued(u: Unfolding, text: string, first: bool): Unfolding {
    if first then Unfolding(Flush(u), text, false) else u.(current := u.current + text)
  }

  /** A continuation needs an open line in front of it. */
  predicate Ready(u: Unfolding, first: bool) { !first ==> u.current != "" && !u.comment }

  /** Non-empty content that may stand on a first or on a continuation line. */
  predicate Content(text: string, first: bool) {
    text != "" && Printable(text) && (first ==> Clean(text))
  }

  function Physical(text: string, first: bool): string { if first then text else " " + text }

  lemma OneMoreLine(text: string, first: bool, u: Unfolding)
    requires Content(text, first) && Ready(u, first)
    ensures UnfoldLine(Physical(text, first), u) ==
            if |Physical(text, first)| < MAX_LINE then Some(Continued(u, text, first)) else None
  {
    var physical := Physical(text, first);
    assert physical[|physical| - 1] == text[|text| - 1];
    assert WithoutReturns(physical) == physical;
  }

  lemma UnfoldCons(text: string, first: bool, more: seq<string>, u: Unfolding)
    requires Content(text, first) && Ready(u, first)
    ensures UnfoldFrom([Physical(text, first)] + more, u) ==
            if |Physical(text, first)| < MAX_LINE then UnfoldFrom(more, Continued(u, text, first)) else None
    ensures Ready(Continued(u, text, first), false)
  {
    OneMoreLine(text, first, u);
    assert ([Physical(text, first)] + more)[1..] == more;
  }

  lemma ContinuedTwice(u: Unfolding, head: string, rest: string, first: bool)
    ensures Continued(Continued(u, head, first), rest, false) == Continued(u, head + rest, first)
  {
    assert u.current + head + rest == u.current + (head + rest);
  }

  lemma PrintableParts(a: string, b: string)
    ensures Printable(a + b) <==> Printable(a) && Printable(b)
  {
    if Printable(a + b) {
      assert forall i :: 0 <= i < |a| ==> a[i] == (a + b)[i];
      assert forall i :: 0 <= i < |b| ==> b[i] == (a + b)[|a| + i];
    }
  }

  lemma {:induction false} FoldUnfolds(line: string, width: nat, first: bool, more: seq<string>, u: Unfolding)
    requires 2 <= width < MAX_LINE && Printable(line) && (first ==> Clean(line)) && Ready(u, first)
    ensures UnfoldFrom(Fold(line, width, first) + more, u) == UnfoldFrom(more, Continued(u, line, first))
    decreases |line|
  {
    assert first ==> line != "";
    hide UnfoldFrom, UnfoldLine, Ready, Printable, JoinLines;
    if line == "" {
      assert Fold(line, width, first) + more == more;
      assert u.current + "" == u.current;
    } else {
      var room := if first then width else width - 1;
      var size := if room > |line| then |line| else room;
      var head, rest := line[..size], line[size..];
      assert head + rest == line;
      PrintableParts(head, rest);
      var tail := Fold(rest, width, false);
      assert (if first then "" else " ") + head == Physical(head, first);
      assert Fold(line, width, first) + more == [Physical(head, first)] + (tail + more);
      UnfoldCons(head, first, tail + more, u);
      ContinuedTwice(u, head, rest, first);
      hide Continued, Physical, Clean, Content;
      FoldUnfolds(rest, width, false, more, Continued(u, head, first));
    }
  }

  lemma {:induction false} FoldLinesClean(line: string, width: nat, first: bool)
    requires 2 <= width && Printable(line) && (first ==> line != "")
    ensures forall i :: 0 <= i < |Fold(line, width, first)| ==>
      Printable(Fold(line, width, first)[i]) && 0 < |Fold(line, width, first)[i]| <= width
    decreases |line|
  {
    if line != "" {
      var room := if first then width else width - 1;
      var size := if room > |line| then |line| else room;
      FoldLinesClean(line[size..], width, false);
    }
  }

  lemma PrintableLine(line: string)
    requires Printable(line)
    ensures OneLine(line) && DropCR(line) == line
  {
  }

  /** Unfolding what the default writer folded gives the line back. */
  lemma FoldReadBack(line: string, width: nat)
    requires 2 <= width < MAX_LINE && Clean(line)
    ensures Unfold(JoinLines(Fold(line, width, true))) == Some([line])
  {
    var lines := Fold(line, width, true);
    FoldLinesClean(line, width, true);
    forall i | 0 <= i < |lines| ensures OneLine(lines[i]) { PrintableLine(lines[i]); }
    LinesReadBack(lines, "");
    assert JoinLines(lines) + "" == JoinLines(lines) && lines + [] == lines;
    FoldUnfolds(line, width, true, [], Unfolding([], "", false));
    assert [] + [line] == [line];
  }

  // ----- configured widths -----

  /**
   * `text` is what the physical line being written holds of its logical line, not
   * counting the space a continuation starts with.
   */
  lemma {:induction false} WrapUnfolds(text: string, value: string, width: nat, first: bool, u: Unfolding)
    requires width >= 1 && Content(text + value, first) && Ready(u, first) && (text == "" ==> first)
    ensures var lines := Wrap(Physical(text, first), value, width);
            UnfoldFrom(lines, u) == if Fits(lines) then Some(Flush(Continued(u, text + value, first))) else None
    decreases |value|
  {
    var current := Physical(text, first);
    PrintableParts(text, value);
    if value == "" {
      assert text + value == text && [current] + [] == [current];
      UnfoldCons(text, first, [], u);
      UnfoldNothing(Continued(u, text, first));
      FitsCons(current, []);
    } else if |current| >= width {
      WrapBreaks(text, value, width, first, u);
    } else {
      var size := Room(|value|, |current|, width);
      assert value[..size] + value[size..] == value;
      assert text + value[..size] + value[size..] == text + value;
      assert Physical(text + value[..size], first) == current + value[..size];
      hide UnfoldFrom, Fits, Content, Ready, Physical, Continued;
      WrapUnfolds(text + value[..size], value[size..], width, first, u);
    }
  }

  lemma {:induction false} WrapBreaks(text: string, value: string, width: nat, first: bool, u: Unfolding)
    requires width >= 1 && Content(text + value, first) && Ready(u, first) && (text == "" ==> first)
    requires value != "" && |Physical(text, first)| >= width
    ensures var lines := Wrap(Physical(text, first), value, width);
            UnfoldFrom(lines, u) == if Fits(lines) then Some(Flush(Continued(u, text + value, first))) else None
    decreases |value|, 0
  {
    hide UnfoldFrom, Ready, Fits;
    var current := Physical(text, first);
    var size := Room(|value|, 1, width);
    var head, rest := value[..size], value[size..];
    var more := Wrap(" " + head, rest, width);
    assert Wrap(current, value, width) == [current] + more;
    PrintableParts(text, value);
    assert head + rest == value;
    UnfoldCons(text, first, more, u);
    FitsCons(current, more);
    ContinuedTwice(u, text, value, first);
    if |current| < MAX_LINE {
      assert Physical(head, false) == " " + head;
      WrapUnfolds(head, rest, width, false, Continued(u, text, first));
    }
  }

  lemma UnfoldNothing(u: Unfolding)
    ensures UnfoldFrom([], u) == Some(Flush(u))
  {
  }

  lemma FitsCons(line: string, more: seq<string>)
    ensures Fits([line] + more) <==> |line| < MAX_LINE && Fits(more)
  {
    if Fits([line] + more) {
      assert |([line] + more)[0]| < MAX_LINE;
      forall i | 0 <= i < |more| ensures |more[i]| < MAX_LINE { assert ([line] + more)[i + 1] == more[i]; }
    }
  }

  lemma {:induction false} WrapLinesPrintable(current: string, value: string, width: nat)
    requires width >= 1 && Printable(current + value)
    ensures forall i :: 0 <= i < |Wrap(current, value, width)| ==> Printable(Wrap(current, value, width)[i])
    decreases |value|
  {
    assert forall i :: 0 <= i < |current| ==> (current + value)[i] == current[i];
    assert forall i :: 0 <= i < |value| ==> value[i] == (current + value)[|current| + i];
    if value != "" {
      if |current| >= width {
        var size := Room(|value|, 1, width);
        assert " " + value[..size] + value[size..] == " " + value;
        WrapLinesPrintable(" " + value[..size], value[size..], width);
      } else {
        var size := Room(|value|, |current|, width);
        assert current + value[..size] + value[size..] == current + value;
        WrapLinesPrintable(current + value[..size], value[size..], width);
      }
    }
  }

  /** When every physical line is below the reader's limit, in terms of what the writer is given. */
  predicate WrapFits(size: nat, prefix: nat, width: nat) {
    if width < MAX_LINE then prefix < MAX_LINE else size < MAX_LINE
  }

  /**
   * Below the limit the width bounds every line but one that begins with a longer prefix; from the limit on, a line
   * is only ever broken when it has reached it.
   */
  lemma {:induction false} FitsExactly(current: string, value: string, width: nat)
    requires width >= 1
    ensures Fits(Wrap(current, value, width)) <==> WrapFits(|current| + |value|, |current|, width)
    decreases |value|
  {
    hide Fits;
    if value == "" {
      FitsCons(current, []);
      FitsNothing();
      assert [current] + [] == [current];
    } else if |current| >= width {
      var size := Room(|value|, 1, width);
      FitsExactly(" " + value[..size], value[size..], width);
      FitsCons(current, Wrap(" " + value[..size], value[size..], width));
    } else {
      var size := Room(|value|, |current|, width);
      FitsExactly(current + value[..size], value[size..], width);
    }
  }

  lemma FitsNothing()
    ensures Fits([])
  {
  }

  /**
   * Unfolding what the configured writer wrapped, at any width from 1 and behind any prefix, gives the line back
   * exactly when prefix and width, or else the line, are below the reader's limit; otherwise the record is rejected.
   */
  lemma WrapReadBack(line: string, prefix: nat, width: nat)
    requires width >= 1 && prefix <= |line| && Clean(line)
    ensures var lines := Wrap(line[..prefix], line[prefix..], width);
            (Fits(lines) <==> WrapFits(|line|, prefix, width)) &&
            Unfold(JoinLines(lines)) == if WrapFits(|line|, prefix, width) then Some([line]) else None
  {
    var current, value := line[..prefix], line[prefix..];
    var lines := Wrap(current, value, width);
    assert current + value == line;
    WrapLinesPrintable(current, value, width);
    forall i | 0 <= i < |lines| ensures OneLine(lines[i]) { PrintableLine(lines[i]); }
    LinesReadBack(lines, "");
    assert JoinLines(lines) + "" == JoinLines(lines) && lines + [] == lines;
    assert Physical(current, true) == current;
    WrapUnfolds(current, value, width, true, Unfolding([], "", false));
    FitsExactly(current, value, width);
    assert [] + [line] == [line];
  }

  /**
   * The prefix the writer really passes: a line that is no comment reads back exactly when the attribute with its
   * mark stays below the limit, or without wrapping the whole line does.
   */
  lemma ConfiguredReadBack(line: string, configured: nat, preencoded: bool)
    requires configured >= 1 && Clean(line)
    ensures Unfold(JoinLines(ConfiguredLines(line, configured, preencoded))) ==
            if WrapFits(|line|, PrefixLength(line), EffectiveWidth(configured, preencoded)) then Some([line]) else None
  {
    CleanIsNoComment(line);
    hide PrefixLength, Wrap, Unfold, JoinLines, Clean, WrapFits;
    WrapReadBack(line, PrefixLength(line), EffectiveWidth(configured, preencoded));
  }

  lemma CleanIsNoComment(line: string)
    requires Clean(line)
    ensures !IsComment(line)
  {
    assert |line| >= 2 ==> line[0] == line[..2][0];
  }

  /** The splitter takes a line of exactly the limit, and the unfolder then refuses the record. */
  lemma LineAtTheLimit(line: string)
    requires Clean(line) && |line| == MAX_LINE
    ensures SplitRecords(line + "\n") == Records([RawRecord(1, line + "\n")])
    ensures Unfold(line + "\n") == None
  {
    PrintableLine(line);
    LinesReadBack([line], "");
    assert JoinLines([line]) + "" == line + "\n" by { assert JoinLines([line]) == line + "\n" + JoinLines([]); }
    NothingBehind();
    assert [line] + [] == [line];
    hide PhysicalLines, JoinLines, Clean, OneLine, DropCR, WithoutReturns;
    var start := Splitting([], "", 0, 1);
    assert "" + line + "\n" == line + "\n";
    assert SplitLines([line], start) == SplitLines([], Splitting([], line + "\n", 1, 1));
    assert [] + [RawRecord(1, line + "\n")] == [RawRecord(1, line + "\n")];
  }

  lemma NothingBehind()
    ensures PhysicalLines("") == []
  {
  }

  /** No continuation is longer than the width, or than two where the width is 1; nor is the first line, but for its prefix. */
  lemma {:induction false} WrapWidth(current: string, value: string, width: nat)
    requires width >= 1
    ensures var lines, bound := Wrap(current, value, width), if width < 2 then 2 else width;
            (forall i :: 0 < i < |lines| ==> |lines[i]| <= bound) &&
            |lines[0]| <= if |current| <= width then width else |current|
    decreases |value|
  {
    if value != "" {
      if |current| >= width {
        var size := Room(|value|, 1, width);
        WrapWidth(" " + value[..size], value[size..], width);
      } else {
        var size := Room(|value|, |current|, width);
        WrapWidth(current + value[..size], value[size..], width);
      }
    }
  }
}
