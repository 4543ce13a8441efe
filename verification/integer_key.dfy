/** The order-preserving index key of an LDAP INTEGER (restore validation). */
module IntegerKey {
  import opened Bytes
  import opened Text

  datatype KeyResult = Key(octets: seq<byte>) | InvalidInteger | TooLarge

  // ----- decimal text -----

  function Digits(n: nat): (r: seq<byte>)
    ensures |r| > 0
  {
    var last: byte := 48 + n % 10;
    if n < 10 then [last] else Digits(n / 10) + [last]
  }

  /** big.Int.SetString(text, 10): an optional sign, then at least one digit and nothing else. */
  function ParseInteger(text: string): Option<int> {
    var negative := text != "" && text[0] == '-';
    var digits := if text != "" && (text[0] == '-' || text[0] == '+') then text[1..] else text;
    if digits == "" || !AllDigits(digits) then None
    else Some(if negative then -DecimalValue(digits) else DecimalValue(digits))
  }

  // ----- the key -----

  function Complement(s: seq<byte>): (r: seq<byte>)
    ensures |r| == |s|
    ensures forall i :: 0 <= i < |s| ==> r[i] == 255 - s[i]
  {
    if s == [] then [] else
      var flipped: byte := 255 - s[0];
      [flipped] + Complement(s[1..])
  }

  function Magnitude(i: int): nat { if i < 0 then -i else i }

  predicate Indexable(i: int) { |Digits(Magnitude(i))| < TWO32 }

  /** What an indexed integer is stored under: sign octet, length, digits; all but the sign flipped below zero. */
  function SortKey(i: int): (r: seq<byte>)
    requires Indexable(i)
  {
    var digits := Digits(Magnitude(i));
    if i == 0 then [1]
    else if i > 0 then [2] + (BigEndian32(|digits|) + digits)
    else [0] + (BigEndian32(TWO32 - 1 - |digits|) + Complement(digits))
  }

  /** sortableRestoreLDAPInteger. */
  method SortableInteger(value: string) returns (r: KeyResult)
    ensures r == match ParseInteger(TrimSpace(value))
                 case None => InvalidInteger
                 case Some(i) => if Indexable(i) then Key(SortKey(i)) else TooLarge
  {
    assert Indexable(0);
    hide Digits, Complement, TrimSpace, ParseInteger, BigEndian32;
    var parsed := ParseInteger(TrimSpace(value));
    if parsed.None? { return InvalidInteger; }
    var integer := parsed.value;
    if integer == 0 { return Key([1]); }
    var digits := Digits(Magnitude(integer));
    if |digits| > 0xFFFF_FFFF { return TooLarge; }
    if integer > 0 {
      return Key([2] + (BigEndian32(|digits|) + digits));
    }
    var flipped := ComplementAll(digits);
    r := Key([0] + (BigEndian32(TWO32 - 1 - |digits|) + flipped));
  }

  method ComplementAll(digits: seq<byte>) returns (flipped: seq<byte>)
    ensures flipped == Complement(digits)
  {
    hide Complement;
    flipped := [];
    for index := 0 to |digits|
      invariant flipped == Complement(digits)[..index]
    {
      flipped := flipped + [255 - digits[index]];
    }
  }

  // ----- order -----

  /** Shorter numerals are smaller numbers; numerals of one length compare digit by digit. */
  lemma {:induction false} DigitsOrder(m: nat, n: nat)
    requires m < n
    ensures |Digits(m)| < |Digits(n)| || (|Digits(m)| == |Digits(n)| && LexLess(Digits(m), Digits(n)))
    decreases n
  {
    if 10 <= n && 10 <= m {
      var last: byte, last': byte := 48 + m % 10, 48 + n % 10;
      if m / 10 == n / 10 {
        assert m % 10 < n % 10;
        LexLessPrefix(Digits(m / 10), [last], [last']);
      } else {
        DigitsOrder(m / 10, n / 10);
        if |Digits(m / 10)| == |Digits(n / 10)| {
          LexLessExtend(Digits(m / 10), Digits(n / 10), [last], [last']);
        }
      }
    }
  }

  lemma {:induction false} ComplementReverses(a: seq<byte>, b: seq<byte>)
    requires |a| == |b| && LexLess(a, b)
    ensures LexLess(Complement(b), Complement(a))
  {
    if a[0] == b[0] {
      ComplementReverses(a[1..], b[1..]);
      assert Complement(a)[1..] == Complement(a[1..]) && Complement(b)[1..] == Complement(b[1..]);
    }
  }

  lemma PositiveOrder(m: nat, n: nat)
    requires m < n && Indexable(m) && Indexable(n)
    ensures LexLess(BigEndian32(|Digits(m)|) + Digits(m), BigEndian32(|Digits(n)|) + Digits(n))
    ensures LexLess(BigEndian32(TWO32 - 1 - |Digits(n)|) + Complement(Digits(n)),
                    BigEndian32(TWO32 - 1 - |Digits(m)|) + Complement(Digits(m)))
  {
    hide Digits, Complement, BigEndian32, LexLess;
    DigitsOrder(m, n);
    var a, b := Digits(m), Digits(n);
    if |a| < |b| {
      BigEndian32Order(|a|, |b|);
      LexLessExtend(BigEndian32(|a|), BigEndian32(|b|), a, b);
      BigEndian32Order(TWO32 - 1 - |b|, TWO32 - 1 - |a|);
      LexLessExtend(BigEndian32(TWO32 - 1 - |b|), BigEndian32(TWO32 - 1 - |a|), Complement(b), Complement(a));
    } else {
      LexLessPrefix(BigEndian32(|a|), a, b);
      ComplementReverses(a, b);
      LexLessPrefix(BigEndian32(TWO32 - 1 - |a|), Complement(b), Complement(a));
    }
  }

  lemma KeyOrderForward(a: int, b: int)
    requires a < b && Indexable(a) && Indexable(b)
    ensures LexLess(SortKey(a), SortKey(b))
  {
    hide Digits, Complement, BigEndian32;
    if a > 0 {
      PositiveOrder(a, b);
      hide LexLess;
      LexLessPrefix([2], BigEndian32(|Digits(a)|) + Digits(a), BigEndian32(|Digits(b)|) + Digits(b));
    } else if b < 0 {
      PositiveOrder(-b, -a);
      hide LexLess;
      var da, db := Digits(-a), Digits(-b);
      LexLessPrefix([0], BigEndian32(TWO32 - 1 - |da|) + Complement(da), BigEndian32(TWO32 - 1 - |db|) + Complement(db));
    } else {
      assert SortKey(a)[0] < SortKey(b)[0];
    }
  }

  /** Byte order of keys is integer order, in both directions. */
  lemma KeyOrder(a: int, b: int)
    requires Indexable(a) && Indexable(b)
    ensures LexLess(SortKey(a), SortKey(b)) <==> a < b
  {
    if a < b {
      KeyOrderForward(a, b);
    } else if b < a {
      KeyOrderForward(b, a);
      LexLessAsymmetric(SortKey(b), SortKey(a));
    } else {
      LexLessIrreflexive(SortKey(a));
    }
  }

  lemma KeyInjective(a: int, b: int)
    requires Indexable(a) && Indexable(b)
    ensures SortKey(a) == SortKey(b) <==> a == b
  {
    KeyOrder(a, b);
    KeyOrder(b, a);
    LexLessIrreflexive(SortKey(a));
  }

  // ----- the text of an integer and its value -----

  function AsText(digits: seq<byte>): (r: string)
    ensures |r| == |digits|
    ensures forall i :: 0 <= i < |digits| ==> r[i] == digits[i] as char
  {
    seq(|digits|, i requires 0 <= i < |digits| => digits[i] as char)
  }

  /** The decimal text written for n denotes n, so equal keys come from texts with one value. */
  lemma {:induction false} DigitsDenote(n: nat)
    ensures forall i :: 0 <= i < |Digits(n)| ==> 48 <= Digits(n)[i] <= 57
    ensures DecimalValue(AsText(Digits(n))) == n
    decreases n
  {
    var text := AsText(Digits(n));
    if n < 10 {
      assert text[..0] == "";
      assert DecimalValue(text) == 10 * DecimalValue(text[..0]) + n;
    } else {
      DigitsDenote(n / 10);
      assert text[..|text| - 1] == AsText(Digits(n / 10));
    }
  }
}
