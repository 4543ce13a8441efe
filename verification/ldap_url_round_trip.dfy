/** A URL built by the tool, taken apart by the tool, gives back its parts. */
module LdapUrlRoundTrip {
  import opened Text
  import opened LdapUrl
  import opened Base64

  // ----- percent-encoding -----

  lemma HexRead(n: nat)
    requires n < 16
    ensures HexValue(HexDigit(n)) == Some(n)
  {
  }

  lemma ByteRead(c: char)
    requires c < 256 as char
    ensures var high, low := (c as int / 16) % 16, c as int % 16;
            HexValue(HexDigit(high)) == Some(high) && HexValue(HexDigit(low)) == Some(low) &&
            (16 * high + low) as char == c
  {
    HexRead((c as int / 16) % 16);
    HexRead(c as int % 16);
    hide HexValue, HexDigit;
    assert c as int / 16 < 16;
  }

  lemma PlainCharRead(c: char, rest: string)
    requires c != '%'
    ensures PathUnescape([c] + rest) == match PathUnescape(rest) case None => None case Some(more) => Some([c] + more)
  {
    assert ([c] + rest)[1..] == rest;
  }

  lemma EscapedCharRead(c: char, rest: string)
    requires c < 256 as char
    ensures PathUnescape(['%', HexDigit((c as int / 16) % 16), HexDigit(c as int % 16)] + rest) ==
            match PathUnescape(rest) case None => None case Some(more) => Some([c] + more)
  {
    ByteRead(c);
    hide HexValue, HexDigit;
    var code := ['%', HexDigit((c as int / 16) % 16), HexDigit(c as int % 16)];
    assert (code + rest)[3..] == rest;
  }

  /** Decoding undoes encoding, on any bytes. */
  lemma {:induction false} EscapeReadBack(s: string, extra: char)
    requires IsBytes(s)
    ensures PathUnescape(Escape(s, extra)) == Some(s)
  {
    if s != "" {
      EscapeReadBack(s[1..], extra);
      var rest := Escape(s[1..], extra);
      assert !Plain('%');
      hide Plain, HexDigit, PathUnescape;
      if s[0] != extra && Plain(s[0]) { PlainCharRead(s[0], rest); } else { EscapedCharRead(s[0], rest); }
      assert [s[0]] + s[1..] == s;
    }
  }

  lemma NulFree(s: string)
    requires Without(s, '\0')
    ensures BeforeNul(s) == s
  {
    assert IndexOf(s, '\0') == |s|;
  }

  lemma UnescapeEscape(s: string, extra: char)
    requires IsBytes(s) && Without(s, '\0')
    ensures Unescape(Escape(s, extra)) == s
  {
    EscapeReadBack(s, extra);
    NulFree(s);
    hide PathUnescape, Escape, BeforeNul;
  }

  lemma {:induction false} EscapeKeepsOut(s: string, extra: char, c: char)
    requires !Plain(c) || c == extra
    requires c != '%' && !IsDigit(c) && !('A' <= c <= 'F')
    ensures Without(Escape(s, extra), c)
  {
    if s != "" {
      EscapeKeepsOut(s[1..], extra, c);
      assert Without(EscapeChar(s[0], extra), c);
      hide EscapeChar, Plain;
    }
  }

  lemma {:induction false} EscapeSize(s: string, extra: char)
    ensures |Escape(s, extra)| >= |s|
    ensures |Escape(s, extra)| == |s| ==> forall i :: 0 <= i < |s| ==> Plain(s[i]) && s[i] != extra
  {
    if s != "" {
      EscapeSize(s[1..], extra);
      hide Plain;
    }
  }

  // ----- lists -----

  lemma {:induction false} NonEmptyKeeps(parts: seq<string>)
    requires forall i :: 0 <= i < |parts| ==> parts[i] != ""
    ensures NonEmpty(parts) == parts
  {
    if parts != [] {
      NonEmptyKeeps(parts[1..]);
      assert [parts[0]] + parts[1..] == parts;
    }
  }

  predicate Items(parts: seq<string>) {
    parts != [] && forall i :: 0 <= i < |parts| ==> parts[i] != "" && Without(parts[i], ',')
  }

  lemma ListReadBack(parts: seq<string>)
    requires Items(parts)
    ensures List(Join(parts, ',')) == parts
  {
    SplitJoin(parts, ',');
    NonEmptyKeeps(parts);
    hide Join, Split, NonEmpty;
  }

  lemma {:induction false} JoinBytes(parts: seq<string>, c: char)
    requires c < 256 as char && forall i :: 0 <= i < |parts| ==> IsBytes(parts[i])
    ensures IsBytes(Join(parts, c))
  {
    if |parts| > 1 { JoinBytes(parts[1..], c); }
  }

  lemma JoinSome(parts: seq<string>, c: char)
    requires parts != [] && parts[0] != ""
    ensures Join(parts, c) != ""
  {
  }

  lemma SplitNLast(s: string, c: char, n: nat)
    requires Without(s, c) && n > 0
    ensures SplitN(s, c, n) == [s]
  {
    assert IndexOf(s, c) == |s|;
  }

  lemma {:induction false} SplitNJoin(parts: seq<string>, c: char, n: nat)
    requires parts != [] && |parts| < n && forall i :: 0 <= i < |parts| ==> Without(parts[i], c)
    ensures SplitN(Join(parts, c), c, n) == parts
    decreases |parts|
  {
    hide SplitN, Without;
    if |parts| == 1 {
      SplitNLast(parts[0], c, n);
    } else {
      assert Join(parts, c) == parts[0] + [c] + Join(parts[1..], c);
      hide Join;
      SplitNJoin(parts[1..], c, n - 1);
      SplitNFirst(parts[0], c, Join(parts[1..], c), n);
      assert parts == [parts[0]] + parts[1..];
    }
  }

  // ----- ports -----

  lemma {:induction false} PlainTextUnescaped(s: string)
    requires Without(s, '%')
    ensures PathUnescape(s) == Some(s)
  {
    if s != "" {
      PlainTextUnescaped(s[1..]);
      assert [s[0]] + s[1..] == s;
    }
  }

  lemma UnescapesToItself(s: string)
    requires Without(s, '%') && Without(s, '\0')
    ensures Unescape(s) == s
  {
    PlainTextUnescaped(s);
    NulFree(s);
    hide PathUnescape, BeforeNul;
  }

  lemma PortValueOf(text: string, port: int)
    requires text != "" && AllDigits(text) && DecimalValue(text) == port && 1 <= port <= 65535
    ensures PortValue(text) == Some(port) && TrimLeftSpace(text) == text
  {
    assert IsDigit(text[0]);
    hide DecimalValue;
  }

  lemma PortRead(port: int)
    requires 1 <= port <= 65535
    ensures PortValue(TrimLeftSpace(Unescape(Decimal(port)))) == Some(port)
  {
    var text := Decimal(port);
    assert Without(text, '%') && Without(text, '\0');
    hide Decimal, Unescape, DecimalValue, TrimLeftSpace, PortValue, Without, AllDigits;
    UnescapesToItself(text);
    DecimalRead(port);
    PortValueOf(text, port);
  }

  // ----- hosts -----

  predicate PlainHost(host: string) { forall i :: 0 <= i < |host| ==> Plain(host[i]) && host[i] != '/' }

  lemma HostIsPlain(host: string)
    requires Escape(host, '/') == host
    ensures PlainHost(host)
  {
    EscapeSize(host, '/');
  }

  lemma {:induction false} NoColon(s: string)
    ensures Count(s, ':') == 0 <==> Without(s, ':')
  {
    if s != "" { NoColon(s[1..]); }
  }

  lemma CutFirst(front: string, c: char, rest: string)
    requires Without(front, c)
    ensures CutAt(front + [c] + rest, c) == HostAndPort(front, Some(rest))
  {
    IndexOfFirst(front, c, rest);
    hide IndexOf, Without;
    var s := front + [c] + rest;
    assert s[..|front|] == front && s[|front| + 1..] == rest;
  }

  lemma CutNothing(s: string, c: char)
    requires Without(s, c)
    ensures CutAt(s, c) == HostAndPort(s, None)
  {
    assert IndexOf(s, c) == |s|;
  }

  lemma PlainHostKeepsOut(host: string)
    requires PlainHost(host)
    ensures Without(host, '/') && Without(host, '?') && Without(host, ']') && Without(host, '%') && Without(host, '\0')
    ensures host != "" ==> host[0] != '[' && !IsSpace(host[0])
  {
  }

  lemma DecimalKeepsOut(n: nat)
    ensures Without(Decimal(n), '/') && Without(Decimal(n), '?') && Without(Decimal(n), '%') && Without(Decimal(n), '\0')
  {
    hide Decimal;
  }

  lemma BareHostSplit(host: string, port: string)
    requires PlainHost(host) && Without(host, ':')
    ensures SplitHost(host + (":" + port)) == Some(HostAndPort(host, Some(port)))
  {
    var text := host + [':'] + port;
    assert host + (":" + port) == text;
    CutFirst(host, ':', port);
    hide CutAt, Without;
    if host == "" { assert text[0] == ':'; } else { assert text[0] == host[0]; }
    hide PlainHost, Plain;
  }

  lemma BracketedHostSplit(host: string, port: string)
    requires Without(host, ']')
    ensures SplitHost("[" + host + "]" + (":" + port)) == Some(HostAndPort(host, Some(port)))
  {
    var text := "[" + host + "]" + (":" + port);
    assert text[0] == '[' && text[1..] == host + [']'] + (":" + port);
    CutFirst(host, ']', ":" + port);
    hide CutAt, Without;
    assert (":" + port)[0] == ':' && (":" + port)[1..] == port;
  }

  lemma NotAPort(y: string, port: string)
    ensures PortValue(y + [':'] + port) == None
  {
    var text := y + [':'] + port;
    assert text[|y|] == ':' && !IsDigit(':');
    var signed := text[0] == '-' || text[0] == '+';
    var digits := if signed then text[1..] else text;
    assert digits[if signed then |y| - 1 else |y|] == ':';
  }

  lemma RestIsNoPort(y: string, port: string)
    requires PlainHost(y) && Without(port, '%') && Without(port, '\0')
    ensures PortValue(TrimLeftSpace(Unescape(y + [':'] + port))) == None
  {
    var rest := y + [':'] + port;
    PlainHostKeepsOut(y);
    assert Without(rest, '%') && Without(rest, '\0');
    assert !IsSpace(rest[0]) by { if y != "" { assert rest[0] == y[0]; } }
    assert TrimLeftSpace(rest) == rest;
    hide PlainHost, Without, PortValue, Unescape, TrimLeftSpace;
    UnescapesToItself(rest);
    NotAPort(y, port);
  }

  lemma ColonHostSplit(x: string, y: string, port: string)
    requires PlainHost(x) && Without(x, ':')
    ensures SplitHost(x + [':'] + y + (":" + port)) == Some(HostAndPort(x, Some(y + [':'] + port)))
  {
    var rest := y + [':'] + port;
    var text := x + [':'] + rest;
    assert x + [':'] + y + (":" + port) == text;
    CutFirst(x, ':', rest);
    assert text[0] != '[' by { if x != "" { assert text[0] == x[0]; } else { assert text[0] == ':'; } }
    hide CutAt, PlainHost, Without;
  }

  lemma SplitAtColon(host: string) returns (x: string, y: string)
    requires PlainHost(host) && Count(host, ':') == 1
    ensures host == x + [':'] + y && PlainHost(x) && PlainHost(y) && Without(x, ':')
  {
    NoColon(host);
    hide Plain;
    var n := IndexOf(host, ':');
    assert n < |host|;
    x, y := host[..n], host[n + 1..];
  }

  /** With a single colon the host is cut short and its rest is taken for a port, which it is not. */
  lemma OneColonFails(host: string, port: string, scheme: string)
    requires PlainHost(host) && Count(host, ':') == 1 && scheme != "ldapi"
    requires Without(port, '%') && Without(port, '\0')
    ensures ReadHost(host + (":" + port), scheme) == None
  {
    hide PlainHost, Without, Count, SplitHost, PortValue, TrimLeftSpace, Unescape;
    var x, y := SplitAtColon(host);
    ColonHostSplit(x, y, port);
    RestIsNoPort(y, port);
  }

  // ----- what is asked of a description -----

  predicate ByteText(s: string) { IsBytes(s) && Without(s, '\0') }

  predicate ListAllowed(list: seq<string>) {
    list != [] && forall i :: 0 <= i < |list| ==> list[i] != "" && ByteText(list[i])
  }

  /** A description whose parts can all be written and told apart again; colons in the host are left open. */
  predicate Writable(d: Description) {
    KnownScheme(d.scheme) && d.scheme != "ldapi" && 1 <= d.port <= 65535 && Escape(d.host, '/') == d.host &&
    ByteText(d.base) && ByteText(d.filter) && (!d.filterSet ==> d.filter == "") &&
    (d.attrs.Some? ==> ListAllowed(d.attrs.value) && Items(d.attrs.value)) &&
    (d.extensions.Some? ==> ListAllowed(d.extensions.value)) &&
    (d.scope == "" || d.scope == "base" || d.scope == "one" || d.scope == "sub" || d.scope == "subordinate")
  }

  /** What reading gives back: an unset scope reads as base. */
  function ReadForm(d: Description): Description {
    d.(scope := if d.scope == "" then "base" else d.scope, filterSet := false)
  }

  lemma HostReadBack(d: Description)
    requires Writable(d)
    ensures ReadHost(Authority(d), d.scheme) ==
            if Count(d.host, ':') == 1 then None else Some(HostPort(d.host, d.port))
  {
    var port := Decimal(d.port);
    HostIsPlain(d.host);
    PlainHostKeepsOut(d.host);
    DecimalKeepsOut(d.port);
    UnescapesToItself(d.host);
    PortRead(d.port);
    NoColon(d.host);
    hide Decimal, Escape, Unescape, PortValue, TrimLeftSpace, PlainHost, Without, Count, SplitHost;
    assert Authority(d) == HostText(d) + (":" + port);
    if Count(d.host, ':') == 1 {
      OneColonFails(d.host, port, d.scheme);
    } else if Count(d.host, ':') == 0 {
      BareHostSplit(d.host, port);
    } else {
      BracketedHostSplit(d.host, port);
    }
  }

  lemma WithoutConcat(a: string, b: string, c: char)
    requires Without(a, c) && Without(b, c)
    ensures Without(a + b, c)
  {
  }

  lemma AuthorityKeepsOut(d: Description, c: char)
    requires Writable(d) && (c == '/' || c == '?')
    ensures Without(Authority(d), c)
  {
    HostIsPlain(d.host);
    PlainHostKeepsOut(d.host);
    DecimalKeepsOut(d.port);
    assert Without("[", c) && Without("]", c) && Without(":", c);
    hide Decimal, Escape, PlainHost, Count, Without;
    WithoutConcat("[", d.host, c);
    WithoutConcat("[" + d.host, "]", c);
    WithoutConcat(":", Decimal(d.port), c);
    WithoutConcat(HostText(d), ":" + Decimal(d.port), c);
  }

  // ----- the query -----

  lemma EscapeEmpty(s: string, extra: char)
    ensures Escape(s, extra) == "" <==> s == ""
  {
    EscapeSize(s, extra);
  }

  lemma TextFieldRead(s: string)
    requires ByteText(s)
    ensures Unescape(Escape(s, '\0')) == s && (Escape(s, '\0') == "" <==> s == "") && Without(Escape(s, '\0'), '?')
  {
    UnescapeEscape(s, '\0');
    EscapeEmpty(s, '\0');
    EscapeKeepsOut(s, '\0', '?');
  }

  lemma {:induction false} JoinByteText(parts: seq<string>)
    requires forall i :: 0 <= i < |parts| ==> ByteText(parts[i])
    ensures ByteText(Join(parts, ','))
  {
    JoinBytes(parts, ',');
    JoinWithout(parts, ',', '\0');
    hide Join;
  }

  lemma AttributesFieldRead(attrs: seq<string>)
    requires ListAllowed(attrs) && Items(attrs)
    ensures var field := Escape(Join(attrs, ','), '\0');
            List(Unescape(field)) == attrs && field != "" && Without(field, '?')
  {
    JoinByteText(attrs);
    JoinSome(attrs, ',');
    ListReadBack(attrs);
    hide Join, List, Unescape, Escape, ByteText;
    TextFieldRead(Join(attrs, ','));
  }

  lemma ExtensionsFieldRead(extensions: seq<string>)
    requires ListAllowed(extensions)
    ensures var field := Join(EscapeAll(extensions), ',');
            UnescapeAll(List(field)) == extensions && Without(field, '?')
  {
    var escaped := EscapeAll(extensions);
    forall i | 0 <= i < |escaped|
      ensures escaped[i] != "" && Without(escaped[i], ',') && Without(escaped[i], '?') &&
              Unescape(escaped[i]) == extensions[i]
    {
      EscapeEmpty(extensions[i], ',');
      EscapeKeepsOut(extensions[i], ',', ',');
      EscapeKeepsOut(extensions[i], ',', '?');
      UnescapeEscape(extensions[i], ',');
    }
    hide Escape, Unescape, Without, Join, List, EscapeAll;
    ListReadBack(escaped);
    JoinWithout(escaped, ',', '?');
  }

  lemma ScopeRead(scope: string)
    requires scope == "base" || scope == "one" || scope == "sub" || scope == "subordinate"
    ensures Scope(Unescape(scope)) == scope && Without(scope, '?')
  {
    assert Without(scope, '%') && Without(scope, '\0');
    UnescapesToItself(scope);
    hide Unescape, Without;
    ScopeKept(scope);
  }

  lemma ScopeKept(scope: string)
    requires scope == "base" || scope == "one" || scope == "sub" || scope == "subordinate"
    ensures Scope(scope) == scope
  {
    assert forall i :: 0 <= i < |scope| ==> 'a' <= scope[i] <= 'z';
    assert ToLower(scope) == scope;
    hide ToLower;
  }

  /** The fields mean the parts of the description; parts whose field is missing are unset. */
  ghost predicate FieldsMean(fields: seq<string>, d: Description) {
    fields != [] && |fields| <= 5 && Unescape(fields[0]) == d.base &&
    (if |fields| > 1 && fields[1] != "" then d.attrs == Some(List(Unescape(fields[1]))) else d.attrs == None) &&
    (if |fields| > 2 && fields[2] != "" then d.scope == Scope(Unescape(fields[2])) != "" else d.scope == "") &&
    (if |fields| > 3 && fields[3] != "" then d.filter == Unescape(fields[3]) != "" else d.filter == "") &&
    (if |fields| > 4 then d.extensions == Some(UnescapeAll(List(fields[4]))) && d.extensions != Some([])
     else d.extensions == None)
  }

  lemma BaseField(d: Description)
    requires Writable(d)
    ensures Unescape(AllFields(d)[0]) == d.base && Without(AllFields(d)[0], '?')
  {
    hide Escape, Unescape, Without, Join, EscapeAll;
    TextFieldRead(d.base);
  }

  lemma AttributesField(d: Description)
    requires Writable(d)
    ensures var f := AllFields(d)[1];
            Without(f, '?') && if d.attrs.Some? then f != "" && d.attrs == Some(List(Unescape(f))) else f == ""
  {
    EmptyField();
    hide Escape, Unescape, Without, Join, EscapeAll, List, Items, ListAllowed;
    if d.attrs.Some? { AttributesFieldRead(d.attrs.value); }
  }

  lemma ScopeField(d: Description)
    requires Writable(d)
    ensures var f := AllFields(d)[2];
            f == d.scope && Without(f, '?') && (d.scope != "" ==> d.scope == Scope(Unescape(f)))
  {
    assert Without("", '?');
    hide Escape, Unescape, Without, Join, EscapeAll, Scope;
    if d.scope != "" { ScopeRead(d.scope); }
  }

  lemma FilterField(d: Description)
    requires Writable(d)
    ensures var f := AllFields(d)[3];
            Without(f, '?') && Unescape(f) == d.filter && (f == "" <==> d.filter == "")
  {
    hide Escape, Unescape, Without, Join, EscapeAll;
    TextFieldRead(d.filter);
  }

  lemma ExtensionsField(d: Description)
    requires Writable(d) && d.extensions.Some?
    ensures var f := AllFields(d)[4];
            Without(f, '?') && d.extensions == Some(UnescapeAll(List(f))) && d.extensions != Some([])
  {
    assert d.extensions.value != [];
    hide Escape, Unescape, Without, Join, EscapeAll, UnescapeAll, List, ListAllowed;
    ExtensionsFieldRead(d.extensions.value);
  }

  lemma FieldsWritten(d: Description)
    requires Writable(d) && QueryFields(d) != []
    ensures FieldsMean(QueryFields(d), d)
    ensures forall i :: 0 <= i < |QueryFields(d)| ==> Without(QueryFields(d)[i], '?')
  {
    hide AllFields, Unescape, Without, List, UnescapeAll, Scope, Escape, ByteText, ListAllowed, Items, KnownScheme;
    assert !d.filterSet ==> d.filter == "";
    hide Writable;
    BaseField(d);
    AttributesField(d);
    ScopeField(d);
    FilterField(d);
    if d.extensions.Some? { ExtensionsField(d); }
    var all, fields := AllFields(d), QueryFields(d);
    assert forall i :: 0 <= i < |fields| ==> fields[i] == all[i];
    hide QueryFields;
  }

  lemma EmptyField()
    ensures Escape("", '\0') == "" && Without("", '?')
  {
  }

  lemma QueryRead(fields: seq<string>, d: Description, at: HostPort)
    requires FieldsMean(fields, d) && at == HostPort(d.host, d.port)
    requires forall i :: 0 <= i < |fields| ==> Without(fields[i], '?')
    ensures ReadQuery(Join(fields, '?'), Bare(d.scheme, at, "")) == Some(ReadForm(d))
  {
    SplitNJoin(fields, '?', 6);
    hide Unescape, List, UnescapeAll, Scope, Join, SplitN, Without;
  }

  lemma NothingAsked(d: Description)
    requires QueryFields(d) == [] && Writable(d)
    ensures ReadForm(d) == Bare(d.scheme, HostPort(d.host, d.port), "")
  {
    hide Escape, Join, EscapeAll, KnownScheme, ByteText, ListAllowed, Items;
  }

  lemma RemainderRead(d: Description)
    requires Writable(d)
    ensures ReadRemainder(Authority(d) + Tail(d), d.scheme) ==
            if Count(d.host, ':') == 1 then None else Some(ReadForm(d))
  {
    HostReadBack(d);
    AuthorityKeepsOut(d, '/');
    AuthorityKeepsOut(d, '?');
    var authority, fields := Authority(d), QueryFields(d);
    hide ReadHost, Authority, Without, Count, ReadQuery;
    if fields == [] {
      NothingAsked(d);
      hide QueryFields, Writable, CutAt;
      assert authority + Tail(d) == authority by { assert authority + "" == authority; }
      CutNothing(authority, '/');
      CutNothing(authority, '?');
    } else {
      FieldsWritten(d);
      QueryRead(fields, d, HostPort(d.host, d.port));
      hide QueryFields, Writable, FieldsMean, CutAt, Join, ReadForm;
      assert authority + Tail(d) == authority + ['/'] + Join(fields, '?');
      CutFirst(authority, '/', Join(fields, '?'));
    }
  }

  // ----- the whole URL -----

  lemma SchemeFound(scheme: string, rest: string)
    requires Without(scheme, ':')
    ensures SchemeEnd(scheme + "://" + rest) == |scheme|
    decreases |scheme|
  {
    var s := scheme + "://" + rest;
    if scheme == "" {
      assert s[..3] == "://";
    } else {
      assert s[..3][0] == scheme[0] != ':';
      assert s[1..] == scheme[1..] + "://" + rest;
      SchemeFound(scheme[1..], rest);
    }
  }

  lemma SchemeKept(scheme: string)
    requires KnownScheme(scheme)
    ensures ToLower(scheme) == scheme && Without(scheme, ':') && |scheme| >= 4
    ensures scheme[0] == 'l' || scheme[0] == 'p'
  {
    assert forall i :: 0 <= i < |scheme| ==> 'a' <= scheme[i] <= 'z';
  }

  lemma NoUrlPrefix(raw: string)
    requires |raw| >= 4 && (raw[0] == 'l' || raw[0] == 'p')
    ensures WithoutPrefix(raw) == raw
  {
    assert ToLower(raw[..4])[0] == raw[0];
    assert ToLower("URL:")[0] == 'u';
  }

  lemma ParseOf(url: string, scheme: string, rest: string)
    requires url == scheme + "://" + rest && url[0] != '<' && WithoutPrefix(url) == url
    requires SchemeEnd(url) == |scheme| && KnownScheme(scheme) && ToLower(scheme) == scheme
    ensures Parse(url) == ReadRemainder(rest, scheme)
  {
    hide ReadRemainder, SchemeEnd, ToLower, WithoutPrefix, KnownScheme;
    assert url[..|scheme|] == scheme && url[|scheme| + 3..] == rest;
  }

  /**
   * Building a URL and taking it apart again gives back the description, an unset scope reading as base: for every
   * host that needs no escape and every text without NUL, exactly when the host does not hold a single colon.
   */
  lemma BuiltUrlReadsBack(d: Description)
    requires Writable(d)
    ensures Construct(d).Some?
    ensures Parse(Construct(d).value) == if Count(d.host, ':') == 1 then None else Some(ReadForm(d))
  {
    hide Authority, Tail, ReadRemainder, SchemeEnd, ToLower, Count, Escape, ReadForm, Without, WithoutPrefix, Parse;
    var rest := Authority(d) + Tail(d);
    var url := d.scheme + "://" + rest;
    RemainderRead(d);
    SchemeKept(d.scheme);
    SchemeFound(d.scheme, rest);
    assert url[0] == d.scheme[0] && |url| >= 4;
    NoUrlPrefix(url);
    ParseOf(url, d.scheme, rest);
  }
}
