/** The text of the set language: its parser, and the text every parsed expression reads back from. */
module AclSetText {
  import opened Text
  import opened AclTypes
  import opened AclExpansion
  import opened AclSets

  const MaxDepth: nat := 64
  const MaxLevel: nat := 10000

  // ----- single bytes -----

  /** unicode.IsSpace on one byte. */
  predicate IsBlank(c: char) { IsSpace(c) || c == 0x85 as char || c == 0xA0 as char }

  /** unicode.IsLetter on a byte above ASCII. */
  predicate IsLatinLetter(c: char) {
    c == 0xAA as char || c == 0xB5 as char || c == 0xBA as char ||
    (0xC0 as char <= c <= 0xFF as char && c != 0xD7 as char && c != 0xF7 as char)
  }

  /** What parseIdentifier accepts: a hyphen is part of a name. */
  predicate IsNameChar(c: char) { IsAlpha(c) || IsDigit(c) || IsLatinLetter(c) || c == '-' || c == '.' || c == ';' }

  function SkipBlank(s: string): (r: string)
    ensures |r| <= |s|
    ensures r != "" ==> !IsBlank(r[0])
  {
    if s != "" && IsBlank(s[0]) then SkipBlank(s[1..]) else s
  }

  predicate IsName(s: string) { forall i :: 0 <= i < |s| ==> IsNameChar(s[i]) }

  function NameLength(s: string): (n: nat)
    ensures n <= |s| && IsName(s[..n])
    ensures n < |s| ==> !IsNameChar(s[n])
  {
    if s == "" || !IsNameChar(s[0]) then 0
    else
      assert forall i :: 1 <= i <= NameLength(s[1..]) ==> s[i] == s[1..][i - 1];
      1 + NameLength(s[1..])
  }

  function DigitsLength(s: string): (n: nat)
    ensures n <= |s| && AllDigits(s[..n])
    ensures n < |s| ==> !IsDigit(s[n])
  {
    if s == "" || !IsDigit(s[0]) then 0
    else
      assert forall i :: 1 <= i <= DigitsLength(s[1..]) ==> s[i] == s[1..][i - 1];
      1 + DigitsLength(s[1..])
  }

  // ----- the grammar -----

  /** An expression and the text behind it. */
  datatype Parsed = Parsed(expression: Expression, rest: string)

  function Joined(operator: char, left: Expression, right: Expression): Option<Expression> {
    match operator
    case '|' => Some(Union(left, right))
    case '&' => Some(Intersection(left, right))
    case '+' => Some(Concat(left, right))
    case _ => None
  }

  /** "->" or "/" introduces a step. */
  function ArrowLength(s: string): (n: nat)
    ensures n <= |s|
  {
    if |s| >= 2 && s[0] == '-' && s[1] == '>' then 2 else if s != "" && s[0] == '/' then 1 else 0
  }

  /** What follows "/-": all ancestors, or the one at a level. */
  function ParentsOf(e: Expression, s: string): (r: Option<Parsed>)
    ensures r.Some? ==> |r.value.rest| < |s|
  {
    var n := DigitsLength(s);
    if s != "" && s[0] == '*' then Some(Parsed(Parents(e, 0, true), s[1..]))
    else if n == 0 || DecimalValue(s[..n]) > MaxLevel then None
    else Some(Parsed(Parents(e, DecimalValue(s[..n]), false), s[n..]))
  }

  /** An attribute name, with "*" its closure. */
  function ChaseOf(e: Expression, s: string): (r: Option<Parsed>)
    ensures r.Some? ==> |r.value.rest| < |s|
  {
    var n := NameLength(s);
    if n == 0 then None
    else if n < |s| && s[n] == '*' then Some(Parsed(Chase(e, s[..n], true), s[n + 1..]))
    else Some(Parsed(Chase(e, s[..n], false), s[n..]))
  }

  function StepOf(e: Expression, s: string): (r: Option<Parsed>)
    ensures r.Some? ==> |r.value.rest| < |s|
  {
    if s != "" && s[0] == '-' then ParentsOf(e, s[1..]) else ChaseOf(e, s)
  }

  /** Steps for as long as an arrow or slash follows. */
  function StepsOf(e: Expression, s: string): (r: Option<Parsed>)
    ensures r.Some? ==> |r.value.rest| <= |s|
    decreases |s|
  {
    var t := SkipBlank(s);
    if ArrowLength(t) == 0 then Some(Parsed(e, t))
    else
      match StepOf(e, t[ArrowLength(t)..])
      case None => None
      case Some(step) => StepsOf(step.expression, step.rest)
  }

  /** Behind "(": an expression and its ")". */
  function GroupOf(s: string, depth: nat): (r: Option<Parsed>)
    ensures r.Some? ==> |r.value.rest| < |s|
    decreases |s|, 3
  {
    match ExpressionOf(s, true, depth)
    case None => None
    case Some(inner) =>
      var u := SkipBlank(inner.rest);
      if u == "" || u[0] != ')' then None else Some(Parsed(inner.expression, u[1..]))
  }

  /** Behind "[": a literal up to the next "]". */
  function LiteralOf(s: string): (r: Option<Parsed>)
    ensures r.Some? ==> |r.value.rest| < |s|
  {
    var end := IndexOf(s, ']');
    if end == |s| then None else Some(Parsed(Literal(s[..end]), s[end + 1..]))
  }

  function WordOf(s: string): (r: Option<Parsed>)
    ensures r.Some? ==> |r.value.rest| < |s|
  {
    var n := NameLength(s);
    if s[..n] == "user" then Some(Parsed(User, s[n..]))
    else if s[..n] == "this" then Some(Parsed(This, s[n..]))
    else None
  }

  /** A parenthesized expression, at most 64 deep, a literal, "user" or "this". */
  function BaseOf(s: string, depth: nat): (r: Option<Parsed>)
    ensures r.Some? ==> |r.value.rest| < |s|
    decreases |s|, 0
  {
    if s == "" then None
    else if s[0] == '(' then (if depth < MaxDepth then GroupOf(s[1..], depth + 1) else None)
    else if s[0] == '[' then LiteralOf(s[1..])
    else WordOf(s)
  }

  function OperandOf(s: string, depth: nat): (r: Option<Parsed>)
    ensures r.Some? ==> |r.value.rest| < |s|
    decreases |s|, 1
  {
    match BaseOf(SkipBlank(s), depth)
    case None => None
    case Some(base) => StepsOf(base.expression, base.rest)
  }

  /** Operators and operands for as long as there is text, or up to a closing parenthesis. */
  function MoreOf(left: Expression, s: string, nested: bool, depth: nat): (r: Option<Parsed>)
    ensures r.Some? ==> |r.value.rest| <= |s|
    decreases |s|
  {
    var t := SkipBlank(s);
    if t == "" || (nested && t[0] == ')') then Some(Parsed(left, t))
    else if Joined(t[0], left, left).None? then None
    else
      match OperandOf(t[1..], depth)
      case None => None
      case Some(right) => MoreOf(Joined(t[0], left, right.expression).value, right.rest, nested, depth)
  }

  function ExpressionOf(s: string, nested: bool, depth: nat): (r: Option<Parsed>)
    ensures r.Some? ==> |r.value.rest| < |s|
    decreases |s|, 2
  {
    match OperandOf(s, depth)
    case None => None
    case Some(left) => MoreOf(left.expression, left.rest, nested, depth)
  }

  /** parseSetExpression. */
  function SetOf(s: string): Option<Expression> {
    match ExpressionOf(s, false, 0)
    case None => None
    case Some(parsed) => if SkipBlank(parsed.rest) == "" then Some(parsed.expression) else None
  }

  // ----- the parser object -----

  lemma Dropped(input: string, position: nat, n: nat)
    requires position + n <= |input|
    ensures input[position..][n..] == input[position + n..]
  {
  }

  lemma NameUnfolds(s: string)
    ensures NameLength(s) == if s == "" || !IsNameChar(s[0]) then 0 else 1 + NameLength(s[1..])
  {
  }

  lemma DigitsUnfold(s: string)
    ensures DigitsLength(s) == if s == "" || !IsDigit(s[0]) then 0 else 1 + DigitsLength(s[1..])
  {
  }

  lemma StepsUnfold(e: Expression, s: string)
    ensures var t := SkipBlank(s);
            StepsOf(e, s) ==
            if ArrowLength(t) == 0 then Some(Parsed(e, t))
            else match StepOf(e, t[ArrowLength(t)..])
                 case None => None
                 case Some(step) => StepsOf(step.expression, step.rest)
  {
  }

  class Parser {
    const input: string
    var position: nat
    var depth: nat

    constructor (input: string)
      ensures this.input == input && position == 0 && depth == 0
    {
      this.input := input;
      position, depth := 0, 0;
    }

    predicate Valid()
      reads this
    {
      position <= |input|
    }

    function Rest(): string
      requires Valid()
      reads this
    {
      input[position..]
    }

    /** The parser stands where the grammar says, at this depth, with its expression; or both have failed. */
    predicate Stands(expected: Option<Parsed>, result: Option<Expression>, at: nat)
      reads this
    {
      match expected
      case None => result == None
      case Some(parsed) => result == Some(parsed.expression) && Valid() && Rest() == parsed.rest && depth == at
    }

    method SkipSpace()
      requires Valid()
      modifies this`position
      ensures Valid() && Rest() == SkipBlank(old(Rest()))
    {
      while position < |input| && IsBlank(input[position])
        invariant Valid() && SkipBlank(Rest()) == SkipBlank(old(Rest()))
      {
        Dropped(input, position, 1);
        position := position + 1;
      }
    }

    method ParseIdentifier() returns (name: string)
      requires Valid()
      modifies this`position
      ensures Valid()
      ensures var n := NameLength(old(Rest())); name == old(Rest())[..n] && Rest() == old(Rest())[n..]
    {
      var start := position;
      hide NameLength, IsNameChar;
      NameUnfolds(Rest());
      while position < |input| && IsNameChar(input[position])
        invariant start <= position <= |input|
        invariant NameLength(input[start..]) == position - start + NameLength(Rest())
        invariant NameLength(Rest()) == 0 <==> position == |input| || !IsNameChar(input[position])
      {
        Dropped(input, position, 1);
        NameUnfolds(Rest());
        NameUnfolds(Rest()[1..]);
        position := position + 1;
      }
      Dropped(input, start, position - start);
      name := input[start..position];
    }

    method ParseDigits() returns (digits: string)
      requires Valid()
      modifies this`position
      ensures Valid()
      ensures var n := DigitsLength(old(Rest())); digits == old(Rest())[..n] && Rest() == old(Rest())[n..]
    {
      var start := position;
      hide DigitsLength;
      DigitsUnfold(Rest());
      while position < |input| && IsDigit(input[position])
        invariant start <= position <= |input|
        invariant DigitsLength(input[start..]) == position - start + DigitsLength(Rest())
        invariant DigitsLength(Rest()) == 0 <==> position == |input| || !IsDigit(input[position])
      {
        Dropped(input, position, 1);
        DigitsUnfold(Rest());
        DigitsUnfold(Rest()[1..]);
        position := position + 1;
      }
      Dropped(input, start, position - start);
      digits := input[start..position];
    }

    /** The digits of a parent level, or None when there are none or the level is too large. */
    method ParseLevel() returns (level: Option<nat>)
      requires Valid()
      modifies this`position
      ensures var s := old(Rest()); var n := DigitsLength(s);
              if n == 0 || DecimalValue(s[..n]) > MaxLevel then level == None
              else level == Some(DecimalValue(s[..n])) && Valid() && Rest() == s[n..]
    {
      hide DigitsLength;
      var digits := ParseDigits();
      if digits == "" { return None; }
      level := LevelOf(digits);
    }

    /** "/-" has been read. */
    method ParseParents(e: Expression) returns (result: Option<Expression>)
      requires Valid()
      modifies this`position
      ensures Stands(ParentsOf(e, old(Rest())), result, old(depth))
    {
      hide DigitsLength, DecimalValue;
      if position < |input| && input[position] == '*' {
        Dropped(input, position, 1);
        position := position + 1;
        return Some(Parents(e, 0, true));
      }
      var level := ParseLevel();
      if level.None? { return None; }
      result := Some(Parents(e, level.value, false));
    }

    method ParseChase(e: Expression) returns (result: Option<Expression>)
      requires Valid()
      modifies this`position
      ensures Stands(ChaseOf(e, old(Rest())), result, old(depth))
    {
      hide NameLength;
      var attribute := ParseIdentifier();
      if attribute == "" { return None; }
      if position < |input| && input[position] == '*' {
        Dropped(input, position, 1);
        position := position + 1;
        return Some(Chase(e, attribute, true));
      }
      result := Some(Chase(e, attribute, false));
    }

    /** What follows an arrow or slash. */
    method ParseStep(e: Expression) returns (result: Option<Expression>)
      requires Valid()
      modifies this`position
      ensures Stands(StepOf(e, old(Rest())), result, old(depth))
    {
      hide ParentsOf, ChaseOf;
      if position < |input| && input[position] == '-' {
        Dropped(input, position, 1);
        position := position + 1;
        result := ParseParents(e);
      } else {
        result := ParseChase(e);
      }
    }

    /** The loop of parseOperand over the steps behind an operand. */
    method ParseSteps(e: Expression) returns (result: Option<Expression>)
      requires Valid()
      modifies this`position
      ensures Stands(StepsOf(e, old(Rest())), result, old(depth))
    {
      var expression := e;
      ghost var whole := StepsOf(e, Rest());
      hide StepsOf, StepOf, SkipBlank, ArrowLength;
      while true
        invariant Valid() && StepsOf(expression, Rest()) == whole
        decreases |Rest()|
      {
        ghost var before := Rest();
        StepsUnfold(expression, before);
        SkipSpace();
        var arrow := ArrowLength(Rest());
        if arrow == 0 { return Some(expression); }
        Dropped(input, position, arrow);
        position := position + arrow;
        assert Rest() == SkipBlank(before)[arrow..];
        var step := ParseStep(expression);
        if step.None? { return None; }
        expression := step.value;
      }
    }

    /** "(" has been read: the expression and its closing parenthesis. */
    method ParseGroup() returns (result: Option<Expression>)
      requires Valid() && depth > 0
      modifies this
      ensures Stands(GroupOf(old(Rest()), old(depth)), result, old(depth) - 1)
      decreases |Rest()|, 3
    {
      hide ExpressionOf, SkipBlank;
      var inner := ParseExpression(true);
      if inner.None? { return None; }
      SkipSpace();
      if position >= |input| || input[position] != ')' { return None; }
      Dropped(input, position, 1);
      position := position + 1;
      depth := depth - 1;
      result := inner;
    }

    method ParseWord() returns (result: Option<Expression>)
      requires Valid()
      modifies this`position
      ensures Stands(WordOf(old(Rest())), result, old(depth))
    {
      hide NameLength;
      var identifier := ParseIdentifier();
      if identifier == "user" { return Some(User); }
      if identifier == "this" { return Some(This); }
      result := None;
    }

    method ParseBase() returns (result: Option<Expression>)
      requires Valid()
      modifies this
      ensures Stands(BaseOf(old(Rest()), old(depth)), result, old(depth))
      decreases |Rest()|, 0
    {
      hide GroupOf, WordOf;
      if position >= |input| { return None; }
      if input[position] == '(' {
        Dropped(input, position, 1);
        position := position + 1;
        depth := depth + 1;
        if depth > MaxDepth { return None; }
        result := ParseGroup();
      } else if input[position] == '[' {
        Dropped(input, position, 1);
        position := position + 1;
        var end := IndexOf(Rest(), ']');
        if end == |input| - position { return None; }
        result := Some(Literal(Rest()[..end]));
        Dropped(input, position, end + 1);
        position := position + end + 1;
      } else {
        result := ParseWord();
      }
    }

    method ParseOperand() returns (result: Option<Expression>)
      requires Valid()
      modifies this
      ensures Stands(OperandOf(old(Rest()), old(depth)), result, old(depth))
      decreases |Rest()|, 1
    {
      hide StepsOf, BaseOf, SkipBlank;
      SkipSpace();
      result := ParseBase();
      if result.Some? { result := ParseSteps(result.value); }
    }

    method ParseExpression(nested: bool) returns (result: Option<Expression>)
      requires Valid()
      modifies this
      ensures Stands(ExpressionOf(old(Rest()), nested, old(depth)), result, old(depth))
      decreases |Rest()|, 2
    {
      hide OperandOf, SkipBlank;
      ghost var whole, at := Rest(), depth;
      var operand := ParseOperand();
      if operand.None? { return None; }
      var left := operand.value;
      while true
        invariant Valid() && depth == at && |Rest()| < |whole|
        invariant MoreOf(left, Rest(), nested, at) == ExpressionOf(whole, nested, at)
        decreases |Rest()|
      {
        SkipSpace();
        if position >= |input| || (nested && input[position] == ')') { return Some(left); }
        var operator := input[position];
        if operator !in {'|', '&', '+'} { return None; }
        Dropped(input, position, 1);
        position := position + 1;
        var right := ParseOperand();
        if right.None? { return None; }
        left := match operator
                case '|' => Union(left, right.value)
                case '&' => Intersection(left, right.value)
                case _ => Concat(left, right.value);
      }
    }
  }

  lemma {:induction false} LongerIsLarger(digits: string, n: nat)
    requires AllDigits(digits) && n <= |digits|
    ensures DecimalValue(digits[..n]) <= DecimalValue(digits)
    decreases |digits|
  {
    if n == |digits| {
      assert digits[..n] == digits;
    } else {
      var front := digits[..|digits| - 1];
      assert front[..n] == digits[..n];
      LongerIsLarger(front, n);
      assert IsDigit(digits[|digits| - 1]);
    }
  }

  /** The digit loop of parseOperand: it gives up once the level is over the limit. */
  method LevelOf(digits: string) returns (level: Option<nat>)
    requires AllDigits(digits)
    ensures level == if DecimalValue(digits) > MaxLevel then None else Some(DecimalValue(digits))
  {
    var total: nat := 0;
    for i := 0 to |digits|
      invariant total == DecimalValue(digits[..i]) <= MaxLevel
    {
      assert digits[..i + 1][..i] == digits[..i];
      total := 10 * total + (digits[i] as int - '0' as int);
      if total > MaxLevel {
        LongerIsLarger(digits, i + 1);
        return None;
      }
    }
    assert digits[..|digits|] == digits;
    level := Some(total);
  }

  /** parseSetExpression. */
  method ParseSet(input: string) returns (result: Option<Expression>)
    ensures result == SetOf(input)
  {
    hide ExpressionOf, SkipBlank;
    var parser := new Parser(input);
    assert input[0..] == input;
    var expression := parser.ParseExpression(false);
    if expression.None? { return None; }
    parser.SkipSpace();
    assert |parser.Rest()| == |input| - parser.position;
    if parser.position != |input| { return None; }
    result := expression;
  }

  // ----- a whole set clause -----

  ghost predicate SetMatches(pattern: string, expand: bool, captures: MatchContext, context: SetContext) {
    match if expand then Expand(pattern, captures) else Some(pattern)
    case None => false
    case Some(text) =>
      match SetOf(text)
      case None => false
      case Some(e) => Inhabited(e, context)
  }

  /** matchesSchemaAwareSet: expand, parse, evaluate. */
  method MatchesSet(pattern: string, expand: bool, captures: MatchContext, context: SetContext) returns (matched: bool)
    ensures matched <==> SetMatches(pattern, expand, captures, context)
  {
    hide Inhabited, SetOf, Expand;
    var text := pattern;
    if expand {
      var expanded := ExpandPattern(pattern, captures);
      if expanded.None? { return false; }
      text := expanded.value;
    }
    var e := ParseSet(text);
    if e.None? { return false; }
    matched := HasMembers(e.value, context);
  }

  // ----- printing -----

  predicate IsBinary(e: Expression) { e.Union? || e.Intersection? || e.Concat? }

  function Star(on: bool): string { if on then "*" else "" }

  /** The expression on one line, with no blanks and no parentheses it could do without. */
  function SetText(e: Expression): string
    decreases e, 0
  {
    match e
    case Literal(value) => "[" + value + "]"
    case User => "user"
    case This => "this"
    case Union(left, right) => SetText(left) + "|" + OperandText(right)
    case Intersection(left, right) => SetText(left) + "&" + OperandText(right)
    case Concat(left, right) => SetText(left) + "+" + OperandText(right)
    case Chase(from, attribute, closure) => OperandText(from) + "/" + attribute + Star(closure)
    case Parents(of, level, all) => OperandText(of) + "/-" + LevelText(level, all)
  }

  function LevelText(level: nat, all: bool): string { if all then "*" else Decimal(level) }

  function OperandText(e: Expression): string
    decreases e, 1
  {
    if IsBinary(e) then "(" + SetText(e) + ")" else SetText(e)
  }

  /** How deep parentheses nest in SetText. */
  function Nesting(e: Expression): nat
    decreases e, 0
  {
    match e
    case Literal(_) => 0
    case User => 0
    case This => 0
    case Union(left, right) => Max(Nesting(left), OperandNesting(right))
    case Intersection(left, right) => Max(Nesting(left), OperandNesting(right))
    case Concat(left, right) => Max(Nesting(left), OperandNesting(right))
    case Chase(from, _, _) => OperandNesting(from)
    case Parents(of, _, _) => OperandNesting(of)
  }

  function OperandNesting(e: Expression): nat
    decreases e, 1
  {
    if IsBinary(e) then 1 + Nesting(e) else Nesting(e)
  }

  function Max(a: nat, b: nat): nat { if a < b then b else a }

  /** What text can express: no "]" in a literal, a name that is none of the parent steps, a level in range. */
  predicate Expressible(e: Expression) {
    match e
    case Literal(value) => Without(value, ']')
    case User => true
    case This => true
    case Union(left, right) => Expressible(left) && Expressible(right)
    case Intersection(left, right) => Expressible(left) && Expressible(right)
    case Concat(left, right) => Expressible(left) && Expressible(right)
    case Chase(from, attribute, _) =>
      Expressible(from) && attribute != "" && IsName(attribute) && attribute[0] != '-'
    case Parents(of, level, all) => Expressible(of) && if all then level == 0 else level <= MaxLevel
  }

  // ----- reading what was printed -----

  /** Text that ends a name, a level or a closure. */
  predicate Clear(rest: string) { rest == "" || (!IsNameChar(rest[0]) && rest[0] != '*') }

  /** The last thing the text of the expression holds is a name, to which a hyphen would belong. */
  predicate EndsInName(e: Expression) { e.User? || e.This? || (e.Chase? && !e.closure) }

  /** Text that ends this expression. */
  predicate Stops(e: Expression, rest: string) {
    (EndsInName(e) ==> Clear(rest)) && (e.Parents? && !e.all && rest != "" ==> !IsDigit(rest[0]))
  }

  /** Text that also takes no further step. */
  predicate Ends(rest: string) { rest == "" || rest[0] in {'|', '&', '+', ')'} }

  lemma {:induction false} NameRead(name: string, rest: string)
    requires IsName(name) && (rest == "" || !IsNameChar(rest[0]))
    ensures NameLength(name + rest) == |name|
    decreases |name|
  {
    if name != "" {
      assert (name + rest)[1..] == name[1..] + rest;
      NameRead(name[1..], rest);
    } else {
      assert name + rest == rest;
    }
  }

  lemma {:induction false} DigitsRead(digits: string, rest: string)
    requires AllDigits(digits) && (rest == "" || !IsDigit(rest[0]))
    ensures DigitsLength(digits + rest) == |digits|
    decreases |digits|
  {
    if digits != "" {
      assert (digits + rest)[1..] == digits[1..] + rest;
      assert forall i :: 0 <= i < |digits[1..]| ==> digits[1..][i] == digits[i + 1];
      DigitsRead(digits[1..], rest);
    } else {
      assert digits + rest == rest;
    }
  }

  lemma FrontBack(a: string, b: string)
    ensures (a + b)[..|a|] == a && (a + b)[|a|..] == b
  {
  }

  /** A slash is followed by one step, and then more. */
  lemma SlashRead(e: Expression, text: string)
    ensures StepsOf(e, "/" + text) ==
            match StepOf(e, text)
            case None => None
            case Some(step) => StepsOf(step.expression, step.rest)
  {
    assert ("/" + text)[0] == '/' && ("/" + text)[1..] == text && !IsBlank('/');
    StepsUnfold(e, "/" + text);
    hide StepsOf, StepOf;
  }

  lemma ChaseTaken(e: Expression, attribute: string, closure: bool, rest: string)
    requires attribute != "" && IsName(attribute) && (closure || Clear(rest))
    ensures ChaseOf(e, attribute + (Star(closure) + rest)) == Some(Parsed(Chase(e, attribute, closure), rest))
  {
    var tail := Star(closure) + rest;
    assert !IsNameChar('*');
    if closure { assert tail[0] == '*' && tail[1..] == rest; } else { assert tail == rest; }
    hide NameLength, IsNameChar;
    NameRead(attribute, tail);
    FrontBack(attribute, tail);
  }

  lemma ChaseRead(e: Expression, attribute: string, closure: bool, rest: string)
    requires attribute != "" && IsName(attribute) && attribute[0] != '-' && (closure || Clear(rest))
    ensures StepsOf(e, "/" + (attribute + (Star(closure) + rest))) == StepsOf(Chase(e, attribute, closure), rest)
  {
    var text := attribute + (Star(closure) + rest);
    assert text[0] == attribute[0];
    ChaseTaken(e, attribute, closure, rest);
    SlashRead(e, text);
    hide StepsOf, ChaseOf, ParentsOf;
  }

  lemma ParentsTaken(e: Expression, level: nat, all: bool, rest: string)
    requires (if all then level == 0 else level <= MaxLevel && (rest == "" || !IsDigit(rest[0])))
    ensures ParentsOf(e, LevelText(level, all) + rest) == Some(Parsed(Parents(e, level, all), rest))
  {
    var word := LevelText(level, all);
    FrontBack(word, rest);
    assert (word + rest)[0] == word[0];
    if !all {
      DigitsRead(word, rest);
      DecimalRead(level);
      assert IsDigit(word[0]);
    }
    hide DigitsLength, DecimalValue, Decimal;
  }

  lemma ParentsRead(e: Expression, level: nat, all: bool, rest: string)
    requires (if all then level == 0 else level <= MaxLevel && (rest == "" || !IsDigit(rest[0])))
    ensures StepsOf(e, "/" + ("-" + (LevelText(level, all) + rest))) == StepsOf(Parents(e, level, all), rest)
  {
    var text := "-" + (LevelText(level, all) + rest);
    assert text[0] == '-' && text[1..] == LevelText(level, all) + rest;
    ParentsTaken(e, level, all, rest);
    SlashRead(e, text);
    hide StepsOf, ParentsOf, ChaseOf, LevelText;
  }

  lemma EndsRead(e: Expression, rest: string)
    requires Ends(rest)
    ensures Clear(rest) && SkipBlank(rest) == rest && StepsOf(e, rest) == Some(Parsed(e, rest))
  {
  }

  // ----- operators -----

  function Operator(e: Expression): (c: char)
    requires IsBinary(e)
    ensures c in {'|', '&', '+'}
  {
    if e.Union? then '|' else if e.Intersection? then '&' else '+'
  }

  lemma BinaryText(e: Expression)
    requires IsBinary(e)
    ensures SetText(e) == SetText(e.left) + ([Operator(e)] + OperandText(e.right))
    ensures Joined(Operator(e), e.left, e.right) == Some(e)
  {
    hide OperandText;
  }

  lemma OperatorRead(left: Expression, operator: char, s: string, nested: bool, depth: nat)
    requires operator in {'|', '&', '+'}
    ensures MoreOf(left, [operator] + s, nested, depth) ==
            match OperandOf(s, depth)
            case None => None
            case Some(right) => MoreOf(Joined(operator, left, right.expression).value, right.rest, nested, depth)
  {
    assert ([operator] + s)[0] == operator && ([operator] + s)[1..] == s && !IsBlank(operator);
    hide OperandOf;
  }

  lemma ClosingRead(e: Expression, rest: string, depth: nat)
    ensures MoreOf(e, ")" + rest, true, depth) == Some(Parsed(e, ")" + rest))
  {
    assert (")" + rest)[0] == ')' && !IsBlank(')');
  }

  // ----- operands -----

  lemma WordRead(word: string, rest: string)
    requires (word == "user" || word == "this") && Clear(rest)
    ensures WordOf(word + rest) == Some(Parsed(if word == "user" then User else This, rest))
  {
    assert IsName("user") && IsName("this");
    NameRead(word, rest);
    FrontBack(word, rest);
    hide NameLength;
  }

  lemma LiteralRead(value: string, rest: string)
    requires Without(value, ']')
    ensures LiteralOf(value + "]" + rest) == Some(Parsed(Literal(value), rest))
  {
    IndexOfFirst(value, ']', rest);
    assert value + [']'] + rest == value + "]" + rest;
    var s := value + "]" + rest;
    assert s[..|value|] == value && s[|value| + 1..] == rest;
    hide IndexOf;
  }

  /** Text that starts with a parenthesis: what a group gives, within the limit. */
  lemma GroupRead(inside: string, depth: nat)
    ensures OperandOf("(" + inside, depth) ==
            if depth >= MaxDepth then None
            else match GroupOf(inside, depth + 1)
                 case None => None
                 case Some(base) => StepsOf(base.expression, base.rest)
  {
    var s := "(" + inside;
    assert s[0] == '(' && s[1..] == inside && !IsBlank('(');
    hide GroupOf, StepsOf;
  }

  lemma Parenthesized(e: Expression, rest: string)
    requires IsBinary(e)
    ensures OperandText(e) + rest == "(" + (SetText(e) + (")" + rest))
  {
    assert OperandText(e) == "(" + (SetText(e) + ")");
    hide OperandText, SetText;
    Associates("(", SetText(e) + ")", rest);
    Associates(SetText(e), ")", rest);
  }

  lemma GroupClosed(e: Expression, s: string, rest: string, depth: nat)
    requires ExpressionOf(s, true, depth) == MoreOf(e, ")" + rest, true, depth)
    ensures GroupOf(s, depth) == Some(Parsed(e, rest))
  {
    ClosingRead(e, rest, depth);
    assert (")" + rest)[0] == ')' && (")" + rest)[1..] == rest && !IsBlank(')');
    hide ExpressionOf, MoreOf;
  }

  lemma BracketRead(value: string, rest: string, depth: nat)
    requires Without(value, ']')
    ensures OperandOf("[" + (value + "]" + rest), depth) == StepsOf(Literal(value), rest)
  {
    var s := "[" + (value + "]" + rest);
    assert s[0] == '[' && s[1..] == value + "]" + rest && !IsBlank('[');
    assert SkipBlank(s) == s;
    hide StepsOf, LiteralOf, SkipBlank, Without;
    LiteralRead(value, rest);
  }

  lemma NamedRead(word: string, rest: string, depth: nat)
    requires (word == "user" || word == "this") && Clear(rest)
    ensures OperandOf(word + rest, depth) == StepsOf(if word == "user" then User else This, rest)
  {
    var s := word + rest;
    assert s[0] == word[0] && !IsBlank('u') && !IsBlank('t');
    assert SkipBlank(s) == s;
    hide StepsOf, WordOf, SkipBlank, Clear;
    WordRead(word, rest);
  }

  /** What a base operand is followed by. */
  lemma BaseRead(e: Expression, rest: string, depth: nat)
    requires (e.Literal? || e.User? || e.This?) && Expressible(e) && Stops(e, rest)
    ensures OperandOf(SetText(e) + rest, depth) == StepsOf(e, rest)
  {
    hide StepsOf, OperandOf, Clear;
    match e {
      case Literal(value) =>
        assert SetText(e) + rest == "[" + (value + "]" + rest);
        BracketRead(value, rest, depth);
      case User => NamedRead("user", rest, depth);
      case This => NamedRead("this", rest, depth);
    }
  }

  /** The step a chase or parent expression ends with. */
  function StepText(e: Expression): (t: string)
    requires e.Chase? || e.Parents?
    ensures t != "" && t[0] == '/'
  {
    match e
    case Chase(_, attribute, closure) => "/" + (attribute + Star(closure))
    case Parents(_, level, all) => "/" + ("-" + LevelText(level, all))
  }

  function Under(e: Expression): Expression
    requires e.Chase? || e.Parents?
  {
    match e case Chase(from, _, _) => from case Parents(of, _, _) => of
  }

  lemma StepLast(e: Expression)
    requires e.Chase? || e.Parents?
    ensures SetText(e) == OperandText(Under(e)) + StepText(e)
  {
    hide OperandText, LevelText, Star;
  }

  lemma StepTaken(e: Expression, rest: string)
    requires (e.Chase? || e.Parents?) && Expressible(e) && Stops(e, rest)
    ensures StepsOf(Under(e), StepText(e) + rest) == StepsOf(e, rest)
  {
    hide StepsOf, LevelText, Clear, Star;
    match e {
      case Chase(from, attribute, closure) =>
        ChaseRead(from, attribute, closure, rest);
        assert StepText(e) + rest == "/" + (attribute + (Star(closure) + rest));
      case Parents(of, level, all) =>
        ParentsRead(of, level, all, rest);
        assert StepText(e) + rest == "/" + ("-" + (LevelText(level, all) + rest));
    }
  }

  lemma StepRead(e: Expression, rest: string)
    requires (e.Chase? || e.Parents?) && Expressible(e) && Stops(e, rest)
    ensures SetText(e) + rest == OperandText(Under(e)) + (StepText(e) + rest)
    ensures Clear(StepText(e) + rest)
    ensures StepsOf(Under(e), StepText(e) + rest) == StepsOf(e, rest)
  {
    hide StepsOf, OperandText, SetText, StepText, Expressible;
    StepTaken(e, rest);
    StepLast(e);
    assert (StepText(e) + rest)[0] == '/';
    Associates(OperandText(Under(e)), StepText(e), rest);
  }

  // ----- within the nesting limit everything expressible reads back -----

  lemma {:induction false} SimpleReads(e: Expression, rest: string, depth: nat)
    requires !IsBinary(e) && Expressible(e) && depth + Nesting(e) <= MaxDepth && Stops(e, rest)
    ensures OperandOf(SetText(e) + rest, depth) == StepsOf(e, rest)
    decreases e, 0
  {
    if e.Chase? || e.Parents? {
      StepRead(e, rest);
      hide StepsOf, OperandOf, SetText, StepText, Clear;
      OperandReads(Under(e), StepText(e) + rest, depth);
    } else {
      BaseRead(e, rest, depth);
    }
  }

  lemma {:induction false} OperandReads(e: Expression, rest: string, depth: nat)
    requires Expressible(e) && depth + OperandNesting(e) <= MaxDepth && Clear(rest)
    ensures OperandOf(OperandText(e) + rest, depth) == StepsOf(e, rest)
    decreases e, 2
  {
    if IsBinary(e) {
      hide StepsOf, OperandOf, GroupOf, ExpressionOf, MoreOf, SetText, OperandText, Expressible, Clear;
      assert (")" + rest)[0] == ')';
      ExpressionReads(e, ")" + rest, true, depth + 1);
      GroupClosed(e, SetText(e) + (")" + rest), rest, depth + 1);
      GroupRead(SetText(e) + (")" + rest), depth);
      Parenthesized(e, rest);
    } else {
      SimpleReads(e, rest, depth);
    }
  }

  lemma {:induction false} ExpressionReads(e: Expression, rest: string, nested: bool, depth: nat)
    requires Expressible(e) && depth + Nesting(e) <= MaxDepth && Ends(rest)
    ensures ExpressionOf(SetText(e) + rest, nested, depth) == MoreOf(e, rest, nested, depth)
    decreases e, 1
  {
    EndsRead(e, rest);
    hide StepsOf, OperandOf, MoreOf, SetText, OperandText, Clear;
    if IsBinary(e) {
      var more := OperandText(e.right) + rest;
      BinaryText(e);
      assert SetText(e) + rest == SetText(e.left) + ([Operator(e)] + more);
      ExpressionReads(e.left, [Operator(e)] + more, nested, depth);
      OperandReads(e.right, rest, depth);
      EndsRead(e.right, rest);
      OperatorRead(e.left, Operator(e), more, nested, depth);
    } else {
      SimpleReads(e, rest, depth);
    }
  }

  // ----- beyond it nothing does -----

  lemma {:induction false} SimpleTooDeep(e: Expression, rest: string, depth: nat)
    requires !IsBinary(e) && Expressible(e) && depth <= MaxDepth < depth + Nesting(e) && Clear(rest)
    ensures OperandOf(SetText(e) + rest, depth) == None
    decreases e, 0
  {
    StepRead(e, rest);
    hide StepsOf, OperandOf, SetText, StepText, Clear;
    OperandTooDeep(Under(e), StepText(e) + rest, depth);
  }

  lemma NoGroup(s: string, depth: nat)
    requires ExpressionOf(s, true, depth) == None
    ensures GroupOf(s, depth) == None
  {
    hide ExpressionOf;
  }

  lemma {:induction false} OperandTooDeep(e: Expression, rest: string, depth: nat)
    requires Expressible(e) && depth <= MaxDepth < depth + OperandNesting(e) && Clear(rest)
    ensures OperandOf(OperandText(e) + rest, depth) == None
    decreases e, 2
  {
    if IsBinary(e) {
      hide StepsOf, OperandOf, GroupOf, MoreOf, SetText, OperandText, Expressible, Clear;
      assert (")" + rest)[0] == ')';
      if depth < MaxDepth {
        ExpressionTooDeep(e, ")" + rest, true, depth + 1);
        NoGroup(SetText(e) + (")" + rest), depth + 1);
      }
      GroupRead(SetText(e) + (")" + rest), depth);
      Parenthesized(e, rest);
    } else {
      SimpleTooDeep(e, rest, depth);
    }
  }

  lemma {:induction false} ExpressionTooDeep(e: Expression, rest: string, nested: bool, depth: nat)
    requires Expressible(e) && depth <= MaxDepth < depth + Nesting(e) && Ends(rest)
    ensures ExpressionOf(SetText(e) + rest, nested, depth) == None
    decreases e, 1
  {
    EndsRead(e, rest);
    hide StepsOf, OperandOf, MoreOf, SetText, OperandText, Clear;
    if IsBinary(e) {
      var more := OperandText(e.right) + rest;
      BinaryText(e);
      assert SetText(e) + rest == SetText(e.left) + ([Operator(e)] + more);
      if depth + Nesting(e.left) > MaxDepth {
        ExpressionTooDeep(e.left, [Operator(e)] + more, nested, depth);
      } else {
        ExpressionReads(e.left, [Operator(e)] + more, nested, depth);
        OperandTooDeep(e.right, rest, depth);
        OperatorRead(e.left, Operator(e), more, nested, depth);
      }
    } else {
      SimpleTooDeep(e, rest, depth);
    }
  }

  /** The printed text of an expression reads back as that expression, unless its parentheses nest too deep. */
  lemma TextReadsBack(e: Expression)
    requires Expressible(e)
    ensures SetOf(SetText(e)) == if Nesting(e) <= MaxDepth then Some(e) else None
  {
    assert SetText(e) + "" == SetText(e);
    hide SetText, ExpressionOf, Expressible;
    if Nesting(e) <= MaxDepth {
      ExpressionReads(e, "", false, 0);
    } else {
      ExpressionTooDeep(e, "", false, 0);
    }
  }

  // ----- whatever is parsed is expressible -----

  lemma StepParsed(e: Expression, s: string)
    requires Expressible(e) && StepOf(e, s).Some?
    ensures var r := StepOf(e, s).value.expression; Expressible(r) && OperandNesting(r) == OperandNesting(e)
  {
    hide NameLength, DigitsLength, DecimalValue, IsName, AllDigits;
    assert s != "" && NameLength(s) > 0 ==> s[..NameLength(s)][0] == s[0];
  }

  lemma {:induction false} StepsParsed(e: Expression, s: string)
    requires Expressible(e) && StepsOf(e, s).Some?
    ensures var r := StepsOf(e, s).value.expression; Expressible(r) && OperandNesting(r) == OperandNesting(e)
    decreases |s|
  {
    var t := SkipBlank(s);
    if ArrowLength(t) > 0 {
      hide StepOf, SkipBlank, Expressible, Nesting, OperandNesting;
      var after := t[ArrowLength(t)..];
      StepParsed(e, after);
      var step := StepOf(e, after).value;
      StepsParsed(step.expression, step.rest);
    }
  }

  lemma {:induction false} BaseParsed(s: string, depth: nat)
    requires depth <= MaxDepth && BaseOf(s, depth).Some?
    ensures var r := BaseOf(s, depth).value.expression; Expressible(r) && depth + OperandNesting(r) <= MaxDepth
    decreases |s|, 0
  {
    if s[0] == '(' {
      hide ExpressionOf, Expressible, SkipBlank;
      ExpressionParsed(s[1..], true, depth + 1);
    }
  }

  lemma {:induction false} OperandParsed(s: string, depth: nat)
    requires depth <= MaxDepth && OperandOf(s, depth).Some?
    ensures var r := OperandOf(s, depth).value.expression; Expressible(r) && depth + OperandNesting(r) <= MaxDepth
    decreases |s|, 1
  {
    hide BaseOf, StepsOf, SkipBlank, Expressible, OperandNesting;
    BaseParsed(SkipBlank(s), depth);
    var base := BaseOf(SkipBlank(s), depth).value;
    StepsParsed(base.expression, base.rest);
  }

  lemma {:induction false} MoreParsed(left: Expression, s: string, nested: bool, depth: nat)
    requires depth + Nesting(left) <= MaxDepth && Expressible(left) && MoreOf(left, s, nested, depth).Some?
    ensures var r := MoreOf(left, s, nested, depth).value.expression; Expressible(r) && depth + Nesting(r) <= MaxDepth
    decreases |s|, 2
  {
    var t := SkipBlank(s);
    if !(t == "" || (nested && t[0] == ')')) {
      hide OperandOf, SkipBlank;
      OperandParsed(t[1..], depth);
      var right := OperandOf(t[1..], depth).value;
      MoreParsed(Joined(t[0], left, right.expression).value, right.rest, nested, depth);
    }
  }

  lemma {:induction false} ExpressionParsed(s: string, nested: bool, depth: nat)
    requires depth <= MaxDepth && ExpressionOf(s, nested, depth).Some?
    ensures var r := ExpressionOf(s, nested, depth).value.expression; Expressible(r) && depth + Nesting(r) <= MaxDepth
    decreases |s|, 3
  {
    hide OperandOf, MoreOf, Expressible;
    OperandParsed(s, depth);
    var left := OperandOf(s, depth).value;
    MoreParsed(left.expression, left.rest, nested, depth);
  }

  /**
   * The parser produces exactly the expressible trees within the nesting limit, and each of them from its own
   * printed text: accepted text can always be put into that form without changing what it means.
   */
  lemma ParsedExactly(e: Expression)
    ensures (exists s :: SetOf(s) == Some(e)) <==> Expressible(e) && Nesting(e) <= MaxDepth
    ensures (exists s :: SetOf(s) == Some(e)) ==> SetOf(SetText(e)) == Some(e)
  {
    hide SetText, Expressible, Nesting;
    if s :| SetOf(s) == Some(e) { ExpressionParsed(s, false, 0); }
    hide SetOf;
    if Expressible(e) { TextReadsBack(e); }
  }

  // ----- "->" -----

  lemma NameTakesHyphen(name: string, rest: string)
    requires IsName(name)
    ensures name + ("->" + rest) == (name + "-") + (">" + rest)
    ensures IsName(name + "-") && Clear(">" + rest)
  {
    assert "->" + rest == "-" + (">" + rest);
    Associates(name, "-", ">" + rest);
    assert (">" + rest)[0] == '>';
  }

  lemma StrayArrow(e: Expression, rest: string)
    ensures StepsOf(e, ">" + rest) == Some(Parsed(e, ">" + rest))
    ensures MoreOf(e, ">" + rest, false, 0) == None
  {
    assert (">" + rest)[0] == '>' && !IsBlank('>');
  }

  lemma WordTakesHyphen(word: string, rest: string)
    requires word == "user" || word == "this"
    ensures OperandOf(word + ("->" + rest), 0) == None
  {
    var s := word + ("->" + rest);
    assert IsName("user") && IsName("this");
    NameTakesHyphen(word, rest);
    NameRead(word + "-", ">" + rest);
    FrontBack(word + "-", ">" + rest);
    assert s[0] == word[0] && SkipBlank(s) == s;
    assert |s[..NameLength(s)]| == 5;
    hide NameLength;
  }

  lemma ChaseTakesHyphen(e: Expression, rest: string)
    requires e.Chase? && !e.closure && Expressible(e) && Nesting(e) <= MaxDepth
    ensures ExpressionOf(SetText(e) + ("->" + rest), false, 0) == None
  {
    NameTakesHyphen(e.attribute, rest);
    var longer := e.(attribute := e.attribute + "-");
    StepLast(e);
    StepLast(longer);
    assert StepText(longer) == StepText(e) + "-";
    hide StepsOf, OperandOf, MoreOf, StepText, OperandText, SetText, IsName, Clear;
    Associates(OperandText(e.from), StepText(e), "-");
    Associates(SetText(e), "-", ">" + rest);
    assert "->" + rest == "-" + (">" + rest);
    SimpleReads(longer, ">" + rest, 0);
    StrayArrow(longer, rest);
  }

  lemma ArrowTaken(e: Expression, attribute: string)
    requires attribute != "" && IsName(attribute) && attribute[0] != '-'
    ensures StepsOf(e, "->" + attribute) == Some(Parsed(Chase(e, attribute, false), ""))
  {
    var s := "->" + attribute;
    assert s[0] == '-' && s[1] == '>' && s[2..] == attribute && !IsBlank('-');
    assert attribute + (Star(false) + "") == attribute;
    ChaseTaken(e, attribute, false, "");
    StepsUnfold(e, s);
    StepsUnfold(Chase(e, attribute, false), "");
    hide StepsOf, ChaseOf, ParentsOf;
  }

  lemma SlashText(e: Expression, attribute: string)
    requires !IsBinary(e)
    ensures SetText(Chase(e, attribute, false)) == SetText(e) + ("/" + attribute)
  {
    assert attribute + Star(false) == attribute;
    assert OperandText(e) == SetText(e);
    StepLast(Chase(e, attribute, false));
    hide SetText, OperandText;
  }

  lemma ArrowRefused(e: Expression, attribute: string)
    requires Expressible(e) && EndsInName(e) && Nesting(e) <= MaxDepth
    ensures SetOf(SetText(e) + ("->" + attribute)) == None
  {
    assert e.User? ==> SetText(e) == "user";
    assert e.This? ==> SetText(e) == "this";
    hide OperandOf, SetText, Expressible;
    if e.User? {
      WordTakesHyphen("user", attribute);
    } else if e.This? {
      WordTakesHyphen("this", attribute);
    } else {
      ChaseTakesHyphen(e, attribute);
    }
  }

  lemma ArrowAccepted(e: Expression, attribute: string)
    requires Expressible(e) && !IsBinary(e) && !EndsInName(e) && Nesting(e) <= MaxDepth
    requires attribute != "" && IsName(attribute) && attribute[0] != '-'
    ensures SetOf(SetText(e) + ("->" + attribute)) == Some(Chase(e, attribute, false))
  {
    var chase := Chase(e, attribute, false);
    assert ("->" + attribute)[0] == '-' && Stops(e, "->" + attribute);
    hide StepsOf, OperandOf, SetText, IsName, Expressible, Nesting, EndsInName, Stops;
    SimpleReads(e, "->" + attribute, 0);
    ArrowTaken(e, attribute);
    assert MoreOf(chase, "", false, 0) == Some(Parsed(chase, ""));
  }

  /**
   * "->" steps to an attribute just as "/" does, but not right behind a name: the name swallows the hyphen and the
   * text is refused.
   */
  lemma ArrowBehindName(e: Expression, attribute: string)
    requires Expressible(e) && !IsBinary(e) && Nesting(e) <= MaxDepth
    requires attribute != "" && IsName(attribute) && attribute[0] != '-'
    ensures SetOf(SetText(e) + ("/" + attribute)) == Some(Chase(e, attribute, false))
    ensures SetOf(SetText(e) + ("->" + attribute)) ==
            if EndsInName(e) then None else Some(Chase(e, attribute, false))
  {
    TextReadsBack(Chase(e, attribute, false));
    hide SetOf, SetText, IsName;
    SlashText(e, attribute);
    if EndsInName(e) { ArrowRefused(e, attribute); } else { ArrowAccepted(e, attribute); }
  }
}
