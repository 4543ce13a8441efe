/** encoding/base64.StdEncoding, strict and lenient, on byte strings (characters below 256). */
module Base64 {
  import opened Text

  predicate IsBytes(s: string) { forall i :: 0 <= i < |s| ==> s[i] < 256 as char }

  function Octet(c: char): (n: nat)
    ensures n < 256
  {
    c as int % 256
  }

  function Symbol(index: nat): (c: char)
    requires index < 64
    ensures ' ' < c < 127 as char && c != '='
  {
    if index < 26 then (index + 65) as char
    else if index < 52 then (index + 71) as char
    else if index < 62 then (index - 4) as char
    else if index == 62 then '+' else '/'
  }

  /** The value of an alphabet character, or 64 for any other. */
  function Value(c: char): (n: nat)
    ensures n <= 64
  {
    if 'A' <= c <= 'Z' then c as int - 65
    else if 'a' <= c <= 'z' then c as int - 71
    else if '0' <= c <= '9' then c as int + 4
    else if c == '+' then 62
    else if c == '/' then 63
    else 64
  }

  lemma SymbolValue(index: nat)
    requires index < 64
    ensures Value(Symbol(index)) == index
  {
  }

  /** Three octets as four six-bit symbols. */
  function Quad(a: nat, b: nat, c: nat): (r: string)
    requires a < 256 && b < 256 && c < 256
    ensures |r| == 4
  {
    [Symbol(a / 4), Symbol(a % 4 * 16 + b / 16), Symbol(b % 16 * 4 + c / 64), Symbol(c % 64)]
  }

  function Encode(s: string): (r: string)
    ensures |r| == (|s| + 2) / 3 * 4
    decreases |s|
  {
    if s == "" then ""
    else if |s| == 1 then Quad(Octet(s[0]), 0, 0)[..2] + "=="
    else if |s| == 2 then Quad(Octet(s[0]), Octet(s[1]), 0)[..3] + "="
    else Quad(Octet(s[0]), Octet(s[1]), Octet(s[2])) + Encode(s[3..])
  }

  /** Decoding skips line breaks wherever they stand. */
  function WithoutBreaks(s: string): string {
    if s == "" then ""
    else if s[0] == '\r' || s[0] == '\n' then WithoutBreaks(s[1..])
    else [s[0]] + WithoutBreaks(s[1..])
  }

  /** Quanta of four characters, padding only in the last; strict also wants the unused bits zero. */
  function DecodeQuanta(s: string, strict: bool): Option<string>
    decreases |s|
  {
    if s == "" then Some("")
    else if |s| < 4 then None
    else
      var a, b, c, d := Value(s[0]), Value(s[1]), Value(s[2]), Value(s[3]);
      if a == 64 || b == 64 then None
      else if s[2] == '=' then
        if s[3..] == "=" && (!strict || b % 16 == 0) then Some([(a * 4 + b / 16) as char]) else None
      else if c == 64 then None
      else if s[3] == '=' then
        if |s| == 4 && (!strict || c % 4 == 0)
        then Some([(a * 4 + b / 16) as char, (b % 16 * 16 + c / 4) as char]) else None
      else if d == 64 then None
      else
        match DecodeQuanta(s[4..], strict)
        case None => None
        case Some(rest) =>
          Some([(a * 4 + b / 16) as char, (b % 16 * 16 + c / 4) as char, (c % 4 * 64 + d) as char] + rest)
  }

  function Decode(s: string, strict: bool): Option<string> { DecodeQuanta(WithoutBreaks(s), strict) }

  predicate IsAlphabet(s: string) { forall i :: 0 <= i < |s| ==> s[i] == '=' || Value(s[i]) < 64 }

  /** The symbols are in the alphabet and give the octets back; zero octets leave the unused bits zero. */
  lemma QuadValues(a: nat, b: nat, c: nat)
    requires a < 256 && b < 256 && c < 256
    ensures var q := Quad(a, b, c);
            var u, v, w, x := Value(q[0]), Value(q[1]), Value(q[2]), Value(q[3]);
            u < 64 && v < 64 && w < 64 && x < 64 &&
            u * 4 + v / 16 == a && v % 16 * 16 + w / 4 == b && w % 4 * 64 + x == c &&
            (b == 0 ==> v % 16 == 0) && (c == 0 ==> w % 4 == 0) &&
            (forall i :: 0 <= i < 4 ==> q[i] != '=')
  {
    var v, w := a % 4 * 16 + b / 16, b % 16 * 4 + c / 64;
    SymbolValue(a / 4);
    SymbolValue(v);
    SymbolValue(w);
    SymbolValue(c % 64);
    assert v / 16 == a % 4 && v % 16 == b / 16 && w / 4 == b % 16 && w % 4 == c / 64;
    hide Value, Symbol;
  }

  lemma {:induction false} EncodeAlphabet(s: string)
    ensures IsAlphabet(Encode(s))
    decreases |s|
  {
    hide Value, Quad;
    if s != "" {
      QuadValues(Octet(s[0]), if |s| > 1 then Octet(s[1]) else 0, if |s| > 2 then Octet(s[2]) else 0);
      if |s| >= 3 { EncodeAlphabet(s[3..]); }
    }
  }

  lemma {:induction false} WithoutBreaksAlphabet(s: string)
    requires IsAlphabet(s)
    ensures WithoutBreaks(s) == s
  {
    if s != "" {
      WithoutBreaksAlphabet(s[1..]);
    }
  }

  lemma OneOctet(c: char, strict: bool)
    requires c < 256 as char
    ensures DecodeQuanta(Encode([c]), strict) == Some([c])
  {
    hide Value, Quad;
    QuadValues(Octet(c), 0, 0);
    assert Encode([c])[3..] == "=";
  }

  lemma TwoOctets(c: char, d: char, strict: bool)
    requires c < 256 as char && d < 256 as char
    ensures DecodeQuanta(Encode([c, d]), strict) == Some([c, d])
  {
    hide Value, Quad;
    QuadValues(Octet(c), Octet(d), 0);
  }

  lemma EncodeStep(s: string)
    requires |s| >= 3
    ensures Encode(s) == Quad(Octet(s[0]), Octet(s[1]), Octet(s[2])) + Encode(s[3..])
  {
  }

  lemma DecodeStep(quad: string, more: string, strict: bool)
    requires |quad| == 4 && forall i :: 0 <= i < 4 ==> quad[i] != '=' && Value(quad[i]) < 64
    ensures DecodeQuanta(quad + more, strict) ==
            match DecodeQuanta(more, strict)
            case None => None
            case Some(rest) =>
              var a, b, c, d := Value(quad[0]), Value(quad[1]), Value(quad[2]), Value(quad[3]);
              Some([(a * 4 + b / 16) as char, (b % 16 * 16 + c / 4) as char, (c % 4 * 64 + d) as char] + rest)
  {
    hide Value;
    assert (quad + more)[4..] == more;
  }

  lemma ThreeOctets(c: char, d: char, e: char, rest: string, strict: bool)
    requires c < 256 as char && d < 256 as char && e < 256 as char
    requires DecodeQuanta(Encode(rest), strict) == Some(rest)
    ensures DecodeQuanta(Encode([c, d, e] + rest), strict) == Some([c, d, e] + rest)
  {
    hide Value, Quad, Encode, DecodeQuanta;
    var s := [c, d, e] + rest;
    var quad := Quad(Octet(c), Octet(d), Octet(e));
    QuadValues(Octet(c), Octet(d), Octet(e));
    assert s[3..] == rest;
    EncodeStep(s);
    DecodeStep(quad, Encode(rest), strict);
  }

  lemma {:induction false} QuantaRoundTrip(s: string, strict: bool)
    requires IsBytes(s)
    ensures DecodeQuanta(Encode(s), strict) == Some(s)
    decreases |s|
  {
    hide Encode, DecodeQuanta;
    if |s| == 0 {
      assert DecodeQuanta(Encode(""), strict) == Some("") by { EmptyQuanta(strict); }
    } else if |s| == 1 {
      assert s == [s[0]];
      OneOctet(s[0], strict);
    } else if |s| == 2 {
      assert s == [s[0], s[1]];
      TwoOctets(s[0], s[1], strict);
    } else {
      assert s == [s[0], s[1], s[2]] + s[3..];
      QuantaRoundTrip(s[3..], strict);
      ThreeOctets(s[0], s[1], s[2], s[3..], strict);
    }
  }

  lemma EmptyQuanta(strict: bool)
    ensures DecodeQuanta(Encode(""), strict) == Some("")
  {
  }

  /** Both decoders read back what was encoded, for every byte string. */
  lemma RoundTrip(s: string, strict: bool)
    requires IsBytes(s)
    ensures Decode(Encode(s), strict) == Some(s)
  {
    EncodeAlphabet(s);
    WithoutBreaksAlphabet(Encode(s));
    QuantaRoundTrip(s, strict);
  }
}
