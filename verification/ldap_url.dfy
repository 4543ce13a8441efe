/** The LDAP URL tool: building a URL from its parts, and taking one apart (RFC 4516, section 2). */
module LdapUrl {
  import opened Text

  /** attrs and extensions are None for a nil list. */
  datatype Description = Description(scheme: string, host: string, port: int, base: string, attrs: Option<seq<string>>,
                                     scope: string, filter: string, filterSet: bool, extensions: Option<seq<string>>)

  // ----- percent-encoding -----

  predicate Plain(c: char) {
    IsAlpha(c) || IsDigit(c) || c in ";:/@&=+$,-_.!~*'()"
  }

  function HexDigit(n: nat): (c: char)
    requires n < 16
    ensures IsDigit(c) || 'A' <= c <= 'F'
  {
    if n < 10 then '0' + n as char else 'A' + (n - 10) as char
  }

  function HexValue(c: char): Option<nat> {
    if IsDigit(c) then Some((c - '0') as nat)
    else if 'A' <= c <= 'F' then Some(10 + (c - 'A') as nat)
    else if 'a' <= c <= 'f' then Some(10 + (c - 'a') as nat)
    else None
  }

  /** One byte: itself, or '%' and two hex digits. */
  function EscapeChar(c: char, extra: char): string {
    if c != extra && Plain(c) then [c] else ['%', HexDigit((c as int / 16) % 16), HexDigit(c as int % 16)]
  }

  function Escape(s: string, extra: char): string {
    if s == "" then "" else EscapeChar(s[0], extra) + Escape(s[1..], extra)
  }

  lemma EscapeSnoc(s: string, c: char, extra: char)
    ensures Escape(s + [c], extra) == Escape(s, extra) + EscapeChar(c, extra)
  {
    hide EscapeChar;
    if s == "" {
      assert s + [c] == [c] && [c][1..] == "";
      assert EscapeChar(c, extra) + "" == EscapeChar(c, extra) && "" + EscapeChar(c, extra) == EscapeChar(c, extra);
    } else {
      assert (s + [c])[1..] == s[1..] + [c];
      EscapeSnoc(s[1..], c, extra);
      var first, rest, last := EscapeChar(s[0], extra), Escape(s[1..], extra), EscapeChar(c, extra);
      assert first + (rest + last) == first + rest + last;
    }
  }

  /** ldapURLToolEscape. */
  method EscapeText(value: string, extra: char) returns (output: string)
    ensures output == Escape(value, extra)
  {
    output := "";
    for i := 0 to |value|
      invariant output == Escape(value[..i], extra)
    {
      assert value[..i + 1] == value[..i] + [value[i]];
      EscapeSnoc(value[..i], value[i], extra);
      var b := value[i];
      if b != extra && Plain(b) {
        output := output + [b];
      } else {
        output := output + ['%', HexDigit((b as int / 16) % 16), HexDigit(b as int % 16)];
      }
    }
    assert value[..|value|] == value;
  }

  /** url.PathUnescape: None on a malformed escape. */
  function PathUnescape(s: string): Option<string> {
    if s == "" then Some("")
    else if s[0] == '%' then
      if |s| < 3 || HexValue(s[1]).None? || HexValue(s[2]).None? then None
      else
        match PathUnescape(s[3..])
        case None => None
        case Some(rest) => Some([(16 * HexValue(s[1]).value + HexValue(s[2]).value) as char] + rest)
    else
      match PathUnescape(s[1..])
      case None => None
      case Some(rest) => Some([s[0]] + rest)
  }

  function BeforeNul(s: string): string { s[..IndexOf(s, '\0')] }

  /** ldapURLToolUnescape: nothing on a malformed escape, and only what precedes a NUL. */
  function Unescape(s: string): string {
    match PathUnescape(s) case None => "" case Some(decoded) => BeforeNul(decoded)
  }

  // ----- lists, scopes, ports -----

  function NonEmpty(parts: seq<string>): seq<string> {
    if parts == [] then [] else (if parts[0] == "" then [] else [parts[0]]) + NonEmpty(parts[1..])
  }

  /** ldapURLToolList: the non-empty parts between commas. */
  function List(s: string): seq<string> { NonEmpty(Split(s, ',')) }

  /** ldapURLToolScope: the canonical name of a scope, or nothing. */
  function Scope(value: string): string {
    var v := ToLower(value);
    if v == "base" then "base"
    else if v == "one" || v == "onelevel" then "one"
    else if v == "sub" || v == "subtree" then "sub"
    else if v == "subord" || v == "subordinate" || v == "children" then "subordinate"
    else ""
  }

  /** strconv.ParseInt with out-of-range values clamped to 64 bits and then kept to their low 32. */
  function PortValue(text: string): Option<int> {
    var negative := text != "" && text[0] == '-';
    var digits := if text != "" && (text[0] == '-' || text[0] == '+') then text[1..] else text;
    if digits == "" || !AllDigits(digits) then None
    else
      var value := if negative then -DecimalValue(digits) else DecimalValue(digits);
      Some(Low32(if value > 0x7FFF_FFFF_FFFF_FFFF then 0x7FFF_FFFF_FFFF_FFFF
                 else if value < -0x8000_0000_0000_0000 then -0x8000_0000_0000_0000 else value))
  }

  /** int(int32(value)). */
  function Low32(value: int): int {
    var low := value % 0x1_0000_0000;
    if low >= 0x8000_0000 then low - 0x1_0000_0000 else low
  }

  function Count(s: string, c: char): nat {
    if s == "" then 0 else (if s[0] == c then 1 else 0) + Count(s[1..], c)
  }

  // ----- building -----

  function HostText(d: Description): string {
    var host := Escape(d.host, '/');
    if d.scheme != "ldapi" && Count(d.host, ':') >= 2 then "[" + host + "]" else host
  }

  function Authority(d: Description): string {
    HostText(d) + if d.port != 0 then ":" + Decimal(if d.port < 0 then 0 else d.port) else ""
  }

  function EscapeAll(values: seq<string>): (r: seq<string>)
    ensures |r| == |values|
    ensures forall i :: 0 <= i < |r| ==> r[i] == Escape(values[i], ',')
  {
    seq(|values|, i requires 0 <= i < |values| => Escape(values[i], ','))
  }

  /** Every field that can follow the slash. */
  function AllFields(d: Description): (fields: seq<string>)
    ensures |fields| == 5
  {
    [Escape(d.base, '\0'), Escape(if d.attrs.Some? then Join(d.attrs.value, ',') else "", '\0'), d.scope,
     Escape(d.filter, '\0'), Join(EscapeAll(if d.extensions.Some? then d.extensions.value else []), ',')]
  }

  /** How many of them are written: up to the last one that is set. */
  function FieldCount(d: Description): (n: nat)
    ensures n <= 5
  {
    if d.extensions.Some? then 5
    else if d.filterSet then 4
    else if d.scope != "" then 3
    else if d.attrs.Some? then 2
    else if d.base != "" then 1
    else 0
  }

  function QueryFields(d: Description): seq<string> { AllFields(d)[..FieldCount(d)] }

  function Tail(d: Description): string {
    if QueryFields(d) == [] then "" else "/" + Join(QueryFields(d), '?')
  }

  /** construct. */
  function Construct(d: Description): Option<string> {
    if d.port < 0 || d.port > 65535 || (d.port != 0 && Escape(d.host, '/') != d.host) then None
    else Some(d.scheme + "://" + (Authority(d) + Tail(d)))
  }

  // ----- taking apart -----

  /** strings.Cut's position of "://"; the length when it does not occur. */
  function SchemeEnd(s: string): (n: nat)
    ensures n <= |s|
    ensures n < |s| ==> n + 3 <= |s| && s[n..n + 3] == "://"
  {
    if |s| < 3 then |s|
    else if s[..3] == "://" then 0
    else
      var n := SchemeEnd(s[1..]);
      assert n < |s[1..]| ==> s[1..][n..n + 3] == s[n + 1..n + 4];
      n + 1
  }

  predicate KnownScheme(s: string) { s == "ldap" || s == "ldaps" || s == "ldapi" || s == "pldap" || s == "pldaps" }

  datatype HostPort = HostPort(host: string, port: int)

  function DefaultPort(scheme: string): int { if scheme == "ldaps" then 636 else 389 }

  /** A host with the text of a port, if there is one. */
  datatype HostAndPort = HostAndPort(host: string, port: Option<string>)

  function CutAt(s: string, c: char): HostAndPort {
    var n := IndexOf(s, c);
    HostAndPort(s[..n], if n < |s| then Some(s[n + 1..]) else None)
  }

  /** "[host]:port" or "host:port", the port being optional. */
  function SplitHost(text: string): Option<HostAndPort> {
    if text != "" && text[0] == '[' then
      var inner := CutAt(text[1..], ']');
      if inner.port.None? then None
      else
        var tail := inner.port.value;
        if tail != "" && tail[0] == ':' then Some(HostAndPort(inner.host, Some(tail[1..])))
        else if !Without(tail, ':') then None
        else Some(HostAndPort(inner.host, None))
    else Some(CutAt(text, ':'))
  }

  function ReadHost(text: string, scheme: string): Option<HostPort> {
    if scheme == "ldapi" then Some(HostPort(Unescape(text), 0))
    else
      match SplitHost(text)
      case None => None
      case Some(split) =>
        var port := if split.port.None? then Some(0) else PortValue(TrimLeftSpace(Unescape(split.port.value)));
        if port.None? then None
        else Some(HostPort(Unescape(split.host), if port.value == 0 then DefaultPort(scheme) else port.value))
  }

  function UnescapeAll(values: seq<string>): (r: seq<string>)
    ensures |r| == |values|
    ensures forall i :: 0 <= i < |r| ==> r[i] == Unescape(values[i])
  {
    seq(|values|, i requires 0 <= i < |values| => Unescape(values[i]))
  }

  /** The fields of the part after the slash. */
  function ReadQuery(query: string, d: Description): Option<Description> {
    var fields := SplitN(query, '?', 6);
    if |fields| > 5 then None
    else
      var attrs := if |fields| > 1 && fields[1] != "" then Some(List(Unescape(fields[1]))) else None;
      var scope := if |fields| > 2 && fields[2] != "" then Scope(Unescape(fields[2])) else "base";
      var filter := if |fields| > 3 && fields[3] != "" then Unescape(fields[3]) else "";
      var extensions := if |fields| > 4 then Some(UnescapeAll(List(fields[4]))) else None;
      if scope == "" || (|fields| > 3 && fields[3] != "" && filter == "") || extensions == Some([]) then None
      else
        Some(d.(base := Unescape(fields[0]), attrs := attrs, scope := scope, filter := filter, extensions := extensions))
  }

  function Bare(scheme: string, at: HostPort, base: string): Description {
    Description(scheme, at.host, at.port, base, None, "base", "", false, None)
  }

  /** Everything after "://". */
  function ReadRemainder(remainder: string, scheme: string): Option<Description> {
    var cut := CutAt(remainder, '/');
    if cut.port.Some? then
      match ReadHost(cut.host, scheme)
      case None => None
      case Some(at) => ReadQuery(cut.port.value, Bare(scheme, at, ""))
    else
      var question := CutAt(remainder, '?');
      var suffix := if question.port.Some? then question.port.value else "";
      var base := if scheme == "ldapi" && suffix != "" && suffix[0] == '?' then Unescape(suffix[1..]) else "";
      match ReadHost(question.host, scheme)
      case None => None
      case Some(at) => Some(Bare(scheme, at, base))
  }

  function WithoutPrefix(raw: string): string {
    if |raw| >= 4 && EqualFold(raw[..4], "URL:") then raw[4..] else raw
  }

  /** parseLDAPURLTool. */
  function Parse(raw: string): Option<Description> {
    var enclosed := raw != "" && raw[0] == '<';
    var text := WithoutPrefix(if enclosed then raw[1..] else raw);
    var n := SchemeEnd(text);
    if n == |text| || !KnownScheme(ToLower(text[..n])) then None
    else
      var rest := text[n + 3..];
      if enclosed then
        if rest != "" && rest[|rest| - 1] == '>' then ReadRemainder(rest[..|rest| - 1], ToLower(text[..n])) else None
      else ReadRemainder(rest, ToLower(text[..n]))
  }

  // ----- the tool's own steps -----

  /** The extension loop of construct. */
  method EscapeExtensions(values: seq<string>) returns (escaped: seq<string>)
    ensures escaped == EscapeAll(values)
  {
    escaped := [];
    hide Escape;
    for i := 0 to |values|
      invariant |escaped| == i && forall k :: 0 <= k < i ==> escaped[k] == Escape(values[k], ',')
    {
      var extension := EscapeText(values[i], ',');
      escaped := escaped + [extension];
    }
  }

  /** The fields of construct, and which of them is the last one written. */
  method WriteFields(d: Description) returns (fields: seq<string>)
    ensures fields == QueryFields(d)
  {
    hide Escape, Join, EscapeAll;
    var base := EscapeText(d.base, '\0');
    var attrs := EscapeText(if d.attrs.Some? then Join(d.attrs.value, ',') else "", '\0');
    var filter := EscapeText(d.filter, '\0');
    fields := [base, attrs, d.scope, filter];
    var last := -1;
    if d.extensions.Some? {
      last := 4;
    } else if d.filterSet {
      last := 3;
    } else if d.scope != "" {
      last := 2;
    } else if d.attrs.Some? {
      last := 1;
    } else if d.base != "" {
      last := 0;
    }
    ghost var all := AllFields(d);
    assert fields == all[..4];
    if last == 4 {
      var extensions := EscapeExtensions(d.extensions.value);
      fields := fields + [Join(extensions, ',')];
      assert fields == all;
    }
    assert last + 1 == FieldCount(d);
    fields := fields[..last + 1];
  }

  lemma RegroupUrl(scheme: string, host: string, port: string, tail: string)
    ensures scheme + "://" + host + port + tail == scheme + "://" + (host + port + tail)
  {
  }

  /** construct, step by step. */
  method BuildUrl(d: Description) returns (url: Option<string>)
    ensures url == Construct(d)
  {
    if d.port < 0 || d.port > 65535 { return None; }
    hide Escape, Decimal, QueryFields, Join, Count;
    var host := EscapeText(d.host, '/');
    if d.port != 0 && host != d.host { return None; }
    if d.scheme != "ldapi" && Count(d.host, ':') >= 2 { host := "[" + host + "]"; }
    assert host == HostText(d);
    hide HostText;
    var port := "";
    if d.port != 0 { port := ":" + Decimal(d.port); }
    assert Authority(d) == host + port;
    hide Authority;
    var fields := WriteFields(d);
    var tail := "";
    if |fields| > 0 { tail := "/" + Join(fields, '?'); }
    assert tail == Tail(d);
    hide Tail;
    RegroupUrl(d.scheme, host, port, tail);
    return Some(d.scheme + "://" + host + port + tail);
  }

  /** The decoding loop over the extensions. */
  method UnescapeExtensions(values: seq<string>) returns (decoded: seq<string>)
    ensures decoded == UnescapeAll(values)
  {
    decoded := values;
    hide Unescape;
    for i := 0 to |values|
      invariant |decoded| == |values|
      invariant forall k :: 0 <= k < |values| ==> decoded[k] == if k < i then Unescape(values[k]) else values[k]
    {
      decoded := decoded[i := Unescape(decoded[i])];
    }
  }

  /** The last part of parseLDAPURLTool: the fields after the slash fill the description one by one. */
  method FillQuery(query: string, start: Description) returns (result: Option<Description>)
    requires start.attrs == None && start.scope == "base" && start.filter == "" && start.extensions == None
    ensures result == ReadQuery(query, start)
  {
    hide Unescape, List, Scope, SplitN, UnescapeAll;
    var fields := SplitN(query, '?', 6);
    if |fields| > 5 { return None; }
    var d := start.(base := Unescape(fields[0]));
    if |fields| > 1 && fields[1] != "" { d := d.(attrs := Some(List(Unescape(fields[1])))); }
    if |fields| > 2 && fields[2] != "" {
      d := d.(scope := Scope(Unescape(fields[2])));
      if d.scope == "" { return None; }
    }
    if |fields| > 3 && fields[3] != "" {
      d := d.(filter := Unescape(fields[3]));
      if d.filter == "" { return None; }
    }
    if |fields| > 4 {
      var extensions := List(fields[4]);
      if |extensions| == 0 { return None; }
      extensions := UnescapeExtensions(extensions);
      d := d.(extensions := Some(extensions));
    }
    return Some(d);
  }

  /** parseLDAPURLTool, step by step. */
  method ReadUrl(raw: string) returns (result: Option<Description>)
    ensures result == Parse(raw)
  {
    hide ReadHost, ReadQuery, Unescape, WithoutPrefix, SchemeEnd, ToLower, KnownScheme, IndexOf, CutAt;
    var enclosed := raw != "" && raw[0] == '<';
    var text := WithoutPrefix(if enclosed then raw[1..] else raw);
    var n := SchemeEnd(text);
    if n == |text| { return None; }
    var scheme := ToLower(text[..n]);
    if !KnownScheme(scheme) { return None; }
    var remainder := text[n + 3..];
    if enclosed {
      if remainder == "" || remainder[|remainder| - 1] != '>' { return None; }
      remainder := remainder[..|remainder| - 1];
    }
    var cut := CutAt(remainder, '/');
    var hasSlash := cut.port.Some?;
    var host, base := cut.host, "";
    if !hasSlash {
      var question := CutAt(remainder, '?');
      host := question.host;
      var suffix := if question.port.Some? then question.port.value else "";
      if scheme == "ldapi" && suffix != "" && suffix[0] == '?' { base := Unescape(suffix[1..]); }
    }
    var at := ReadHost(host, scheme);
    if at.None? { return None; }
    var d := Bare(scheme, at.value, base);
    if !hasSlash { return Some(d); }
    result := FillQuery(cut.port.value, d);
  }
}
