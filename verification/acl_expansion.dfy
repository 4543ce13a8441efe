/** Substitution of captures into ACL patterns: $0, ${1}, ${d1}, ${v1} and $$. */
module AclExpansion {
  import opened Text
  import opened AclTypes

  /** strconv.Atoi on 64-bit integers. */
  function Atoi(s: string): Option<int> {
    var digits := if s != "" && (s[0] == '-' || s[0] == '+') then s[1..] else s;
    if digits == "" || !AllDigits(digits) then None
    else
      var value := if s[0] == '-' then -DecimalValue(digits) else DecimalValue(digits);
      if -0x8000_0000_0000_0000 <= value < 0x8000_0000_0000_0000 then Some(value) else None
  }

  datatype Reference = Reference(valueMatches: bool, index: nat)

  /** aclExpansionReference. */
  function ReferenceOf(token: string): Option<Reference> {
    var valueMatches := token != "" && token[0] == 'v';
    var rest := if token != "" && (token[0] == 'v' || token[0] == 'd') then token[1..] else token;
    match Atoi(rest)
    case None => None
    case Some(index) => if index < 0 then None else Some(Reference(valueMatches, index))
  }

  /** The token of a "${...}" at this position, if it is closed. */
  function BracedToken(pattern: string, position: nat): Option<string>
    requires position + 1 < |pattern|
  {
    var rest := pattern[position + 2..];
    var end := IndexOf(rest, '}');
    if end == |rest| then None else Some(rest[..end])
  }

  /** A substitution starts here. */
  predicate ExpandsAt(pattern: string, position: nat)
    requires position < |pattern|
  {
    pattern[position] == '$' && position + 1 < |pattern| &&
    (IsDigit(pattern[position + 1]) ||
     (pattern[position + 1] == '{' && BracedToken(pattern, position).Some? &&
      ReferenceOf(BracedToken(pattern, position).value).Some?))
  }

  /** hasACLExpansion: some position would be substituted. */
  method HasExpansion(pattern: string) returns (found: bool)
    ensures found <==> exists i :: 0 <= i < |pattern| && ExpandsAt(pattern, i)
  {
    for position := 0 to |pattern|
      invariant forall i :: 0 <= i < position ==> !ExpandsAt(pattern, i)
    {
      if pattern[position] != '$' || position + 1 >= |pattern| { continue; }
      var next := pattern[position + 1];
      if IsDigit(next) {
        assert ExpandsAt(pattern, position);
        return true;
      }
      if next != '{' { continue; }
      var token := BracedToken(pattern, position);
      if token.None? { continue; }
      if ReferenceOf(token.value).Some? { return true; }
    }
    return false;
  }

  function Capture(matches: seq<string>, index: nat): string {
    if index < |matches| then matches[index] else ""
  }

  function Prepend(text: string, rest: Option<string>): Option<string> {
    match rest case None => None case Some(more) => Some(text + more)
  }

  function ExpandFrom(pattern: string, position: nat, context: MatchContext): Option<string>
    requires position <= |pattern|
    decreases |pattern| - position
  {
    if position == |pattern| then Some("")
    else if pattern[position] != '$' || position + 1 >= |pattern|
    then Prepend([pattern[position]], ExpandFrom(pattern, position + 1, context))
    else
      var next := pattern[position + 1];
      if next == '$' then Prepend("$", ExpandFrom(pattern, position + 2, context))
      else if IsDigit(next) then
        Prepend(Capture(context.dn, next as int - '0' as int), ExpandFrom(pattern, position + 2, context))
      else if next != '{' then Prepend("$", ExpandFrom(pattern, position + 1, context))
      else
        match BracedToken(pattern, position)
        case None => None
        case Some(token) =>
          match ReferenceOf(token)
          case None => None
          case Some(reference) =>
            var matches := if reference.valueMatches then context.value else context.dn;
            Prepend(Capture(matches, reference.index), ExpandFrom(pattern, position + |token| + 3, context))
  }

  function Expand(pattern: string, context: MatchContext): Option<string> { ExpandFrom(pattern, 0, context) }

  lemma PrependTwice(a: string, b: string, rest: Option<string>)
    ensures Prepend(a, Prepend(b, rest)) == Prepend(a + b, rest)
  {
    if rest.Some? { assert a + (b + rest.value) == a + b + rest.value; }
  }

  /** expandACLPattern. */
  method ExpandPattern(pattern: string, context: MatchContext) returns (result: Option<string>)
    ensures result == Expand(pattern, context)
  {
    var position := 0;
    var expanded := "";
    ghost var whole := Expand(pattern, context);
    assert Prepend("", whole) == whole by { if whole.Some? { assert "" + whole.value == whole.value; } }
    while position < |pattern|
      invariant 0 <= position <= |pattern|
      invariant Prepend(expanded, ExpandFrom(pattern, position, context)) == whole
    {
      ghost var before, start := expanded, position;
      var piece := "";
      if pattern[position] != '$' || position + 1 >= |pattern| {
        piece := [pattern[position]];
        position := position + 1;
      } else {
        var next := pattern[position + 1];
        if next == '$' {
          piece := "$";
          position := position + 2;
        } else if IsDigit(next) {
          piece := Capture(context.dn, next as int - '0' as int);
          position := position + 2;
        } else if next != '{' {
          piece := "$";
          position := position + 1;
        } else {
          var token := BracedToken(pattern, position);
          if token.None? { return None; }
          var reference := ReferenceOf(token.value);
          if reference.None? { return None; }
          var matches := if reference.value.valueMatches then context.value else context.dn;
          piece := Capture(matches, reference.value.index);
          position := position + |token.value| + 3;
        }
      }
      assert ExpandFrom(pattern, start, context) == Prepend(piece, ExpandFrom(pattern, position, context));
      PrependTwice(before, piece, ExpandFrom(pattern, position, context));
      expanded := expanded + piece;
    }
    assert expanded + "" == expanded;
    result := Some(expanded);
  }

  /** A pattern without a substitution means the same in every context. */
  lemma {:induction false} UnexpandedIsConstant(pattern: string, position: nat, a: MatchContext, b: MatchContext)
    requires position <= |pattern| && forall i :: position <= i < |pattern| ==> !ExpandsAt(pattern, i)
    ensures ExpandFrom(pattern, position, a) == ExpandFrom(pattern, position, b)
    decreases |pattern| - position
  {
    if position < |pattern| {
      assert !ExpandsAt(pattern, position);
      UnexpandedIsConstant(pattern, position + 1, a, b);
      if position + 2 <= |pattern| { UnexpandedIsConstant(pattern, position + 2, a, b); }
    }
  }

  /** A substitution of a value capture, ${v...}, starts here. */
  predicate UsesValue(pattern: string, position: nat)
    requires position < |pattern|
  {
    ExpandsAt(pattern, position) && pattern[position + 1] == '{' &&
    ReferenceOf(BracedToken(pattern, position).value).value.valueMatches
  }

  /** Only "${v...}" looks at the value captures. */
  lemma {:induction false} ValueCapturesUnused(pattern: string, position: nat, a: MatchContext, b: MatchContext)
    requires position <= |pattern| && a.dn == b.dn
    requires forall i :: position <= i < |pattern| ==> !UsesValue(pattern, i)
    ensures ExpandFrom(pattern, position, a) == ExpandFrom(pattern, position, b)
    decreases |pattern| - position
  {
    if position < |pattern| {
      assert !UsesValue(pattern, position);
      ValueCapturesUnused(pattern, position + 1, a, b);
      if position + 2 <= |pattern| { ValueCapturesUnused(pattern, position + 2, a, b); }
      if ExpandsAt(pattern, position) && pattern[position + 1] == '{' {
        ValueCapturesUnused(pattern, position + |BracedToken(pattern, position).value| + 3, a, b);
      }
    }
  }
}
