/** The byte-string helpers of Go's strings package that the model needs, on ASCII. */
module Text {

  datatype Option<+T> = None | Some(value: T)

  predicate IsDigit(c: char) { '0' <= c <= '9' }

  predicate IsAlpha(c: char) { 'A' <= c <= 'Z' || 'a' <= c <= 'z' }

  predicate IsSpace(c: char) { c == ' ' || ('\t' <= c && c <= '\r') }

  function LowerChar(c: char): char {
    if 'A' <= c <= 'Z' then c + 32 as char else c
  }

  function ToLower(s: string): (r: string)
    ensures |r| == |s|
    ensures forall i :: 0 <= i < |s| ==> r[i] == LowerChar(s[i])
  {
    seq(|s|, i requires 0 <= i < |s| => LowerChar(s[i]))
  }

  predicate EqualFold(a: string, b: string) { ToLower(a) == ToLower(b) }

  lemma EqualFoldSelf(s: string)
    ensures EqualFold(s, s)
  {
  }

  lemma Associates<T>(a: seq<T>, b: seq<T>, c: seq<T>)
    ensures a + (b + c) == a + b + c
  {
  }

  function TrimLeftSpace(s: string): (r: string)
    ensures r != "" ==> !IsSpace(r[0])
    ensures |r| <= |s|
  {
    if s != "" && IsSpace(s[0]) then TrimLeftSpace(s[1..]) else s
  }

  function TrimRightSpace(s: string): (r: string)
    ensures r != "" ==> !IsSpace(r[|r| - 1]) && s != "" && r[0] == s[0]
    ensures |r| <= |s|
  {
    if s != "" && IsSpace(s[|s| - 1]) then TrimRightSpace(s[..|s| - 1]) else s
  }

  function TrimSpace(s: string): (r: string)
    ensures r != "" ==> !IsSpace(r[0]) && !IsSpace(r[|r| - 1])
    ensures |r| <= |s|
  {
    TrimRightSpace(TrimLeftSpace(s))
  }

  /** strings.IndexByte, with the length standing for "not found". */
  function IndexOf(s: string, c: char): (n: nat)
    ensures n <= |s|
    ensures forall i :: 0 <= i < n ==> s[i] != c
    ensures n < |s| ==> s[n] == c
  {
    if s == "" || s[0] == c then 0 else 1 + IndexOf(s[1..], c)
  }

  predicate AllDigits(s: string) { forall i :: 0 <= i < |s| ==> IsDigit(s[i]) }

  /** The number a run of decimal digits denotes. */
  function DecimalValue(s: string): (n: int)
    requires AllDigits(s)
    ensures n >= 0
  {
    if s == "" then 0
    else
      assert IsDigit(s[|s| - 1]);
      10 * DecimalValue(s[..|s| - 1]) + (s[|s| - 1] as int - '0' as int)
  }

  function Decimal(n: nat): (r: string)
    ensures r != "" && AllDigits(r)
    decreases n
  {
    var last := ['0' + (n % 10) as char];
    if n < 10 then last else Decimal(n / 10) + last
  }

  lemma {:induction false} DecimalRead(n: nat)
    ensures DecimalValue(Decimal(n)) == n
    decreases n
  {
    var r := Decimal(n);
    var last := ['0' + (n % 10) as char];
    if n < 10 {
      assert r[..|r| - 1] == "";
    } else {
      DecimalRead(n / 10);
      assert r == Decimal(n / 10) + last;
      assert r[..|r| - 1] == Decimal(n / 10);
    }
  }

  // ----- splitting and joining at a character -----

  predicate Without(s: string, c: char) { forall i :: 0 <= i < |s| ==> s[i] != c }

  function Split(s: string, c: char): (parts: seq<string>)
    ensures parts != []
    ensures forall i :: 0 <= i < |parts| ==> Without(parts[i], c)
    decreases |s|
  {
    var end := IndexOf(s, c);
    if end == |s| then [s] else [s[..end]] + Split(s[end + 1..], c)
  }

  /** strings.Join with a one-character separator. */
  function Join(parts: seq<string>, c: char): string {
    if parts == [] then "" else if |parts| == 1 then parts[0] else parts[0] + [c] + Join(parts[1..], c)
  }

  lemma IndexOfFirst(front: string, c: char, rest: string)
    requires Without(front, c)
    ensures IndexOf(front + [c] + rest, c) == |front|
  {
    var s := front + [c] + rest;
    assert s[|front|] == c && forall i :: 0 <= i < |front| ==> s[i] == front[i];
  }

  lemma SplitFirst(front: string, c: char, rest: string)
    requires Without(front, c)
    ensures Split(front + [c] + rest, c) == [front] + Split(rest, c)
  {
    IndexOfFirst(front, c, rest);
    hide IndexOf, Without;
    var s := front + [c] + rest;
    assert s[..|front|] == front && s[|front| + 1..] == rest;
  }

  lemma {:induction false} SplitJoin(parts: seq<string>, c: char)
    requires parts != [] && forall i :: 0 <= i < |parts| ==> Without(parts[i], c)
    ensures Split(Join(parts, c), c) == parts
    decreases |parts|
  {
    if |parts| == 1 {
      assert IndexOf(parts[0], c) == |parts[0]|;
    } else {
      SplitJoin(parts[1..], c);
      SplitFirst(parts[0], c, Join(parts[1..], c));
      assert parts == [parts[0]] + parts[1..];
    }
  }

  lemma {:induction false} JoinWithout(parts: seq<string>, c: char, d: char)
    requires c != d && forall i :: 0 <= i < |parts| ==> Without(parts[i], d)
    ensures Without(Join(parts, c), d)
    decreases |parts|
  {
    if |parts| > 1 {
      JoinWithout(parts[1..], c, d);
    }
  }

  lemma {:induction false} SplitKeepsOut(s: string, c: char, d: char)
    requires Without(s, d)
    ensures forall i :: 0 <= i < |Split(s, c)| ==> Without(Split(s, c)[i], d)
    decreases |s|
  {
    var end := IndexOf(s, c);
    if end < |s| { SplitKeepsOut(s[end + 1..], c, d); }
  }

  /** strings.SplitN: at most n parts, the last one unsplit. */
  function SplitN(s: string, c: char, n: nat): (parts: seq<string>)
    requires n > 0
    ensures 0 < |parts| <= n
    ensures forall i :: 0 <= i < |parts| && i < n - 1 ==> Without(parts[i], c)
  {
    var end := IndexOf(s, c);
    if n == 1 || end == |s| then [s] else [s[..end]] + SplitN(s[end + 1..], c, n - 1)
  }

  lemma SplitNFirst(front: string, c: char, rest: string, n: nat)
    requires Without(front, c) && n > 1
    ensures SplitN(front + [c] + rest, c, n) == [front] + SplitN(rest, c, n - 1)
  {
    IndexOfFirst(front, c, rest);
    hide IndexOf, Without;
    var s := front + [c] + rest;
    assert s[..|front|] == front && s[|front| + 1..] == rest;
  }

  // ----- trimming and case -----

  predicate Trimmed(s: string) { s == "" || (!IsSpace(s[0]) && !IsSpace(s[|s| - 1])) }

  lemma TrimSpaceKeeps(s: string)
    requires Trimmed(s)
    ensures TrimSpace(s) == s
  {
  }

  lemma {:induction false} TrimLeftKeepsOut(s: string, c: char)
    requires Without(s, c)
    ensures Without(TrimLeftSpace(s), c)
  {
    if s != "" && IsSpace(s[0]) { TrimLeftKeepsOut(s[1..], c); }
  }

  lemma {:induction false} TrimRightKeepsOut(s: string, c: char)
    requires Without(s, c)
    ensures Without(TrimRightSpace(s), c)
  {
    if s != "" && IsSpace(s[|s| - 1]) { TrimRightKeepsOut(s[..|s| - 1], c); }
  }

  lemma TrimKeepsOut(s: string, c: char)
    requires Without(s, c)
    ensures Without(TrimSpace(s), c)
  {
    TrimLeftKeepsOut(s, c);
    TrimRightKeepsOut(TrimLeftSpace(s), c);
  }

  lemma LowerKeepsOut(s: string, c: char)
    requires Without(s, c) && !IsAlpha(c)
    ensures Without(ToLower(s), c)
  {
  }

  lemma LowerKeepsTrimmed(s: string)
    requires Trimmed(s)
    ensures Trimmed(ToLower(s))
  {
  }

  lemma LowerTwice(s: string)
    ensures ToLower(ToLower(s)) == ToLower(s)
  {
  }
}
