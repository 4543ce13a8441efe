/** The rules, clauses, subjects and targets of the access-control engine. */
module AclTypes {
  import opened Text
  import AciText

  // ----- distinguished names -----

  type Rdn = string

  /** A parsed DN by its identity: normalized RDNs, the entry's own first, the root's last. */
  type DN = seq<Rdn>

  predicate AncestorOf(a: DN, b: DN) { |a| < |b| && b[|b| - |a|..] == a }

  function Parent(dn: DN): Option<DN> { if dn == [] then None else Some(dn[1..]) }

  // ----- privileges -----

  datatype Access = Disclose | Auth | Compare | Search | Read | WriteAdd | WriteDelete | Manage

  /** A mask of privilege bits, as the set of the bits that are on. */
  type Privilege = set<Access>

  const ReadLevel: Privilege := {Disclose, Auth, Compare, Search, Read}

  /** mask & required == required. */
  predicate Holds(mask: Privilege, required: Privilege) { required <= mask }

  datatype Control = Stop | Continue | Break

  datatype GrantMode = GrantSet | GrantAdd | GrantRemove | GrantIdentity

  datatype Grant = Grant(mode: GrantMode, privileges: Privilege, selfValue: bool, realSelfValue: bool)

  // ----- matchers -----

  datatype DNStyle = DNAny | DNExact | DNOne | DNSubtree | DNChildren | DNLevel | DNRegex

  /** A compiled pattern is represented by its text. */
  datatype DNMatcher = DNMatcher(style: DNStyle, dn: DN, pattern: Option<string>, raw: string, expand: bool, level: nat)

  datatype ValueSelector = ValueSelector(style: DNStyle, matchingRule: string, assertion: string, pattern: Option<string>)

  datatype TargetSelector = TargetSelector(dn: DNMatcher, attributes: seq<string>, filter: Option<string>,
                                           value: Option<ValueSelector>)

  datatype StringStyle = StringExact | StringRegex | StringSubtree | StringIP | StringIPv6 | StringPath

  datatype StringMatcher = StringMatcher(style: StringStyle, value: string, pattern: Option<string>, expand: bool)

  datatype Strength = Overall | Transport | Tls | Sasl

  datatype Who =
    | WhoAny
    | WhoAnonymous
    | WhoUsers
    | WhoSelf(level: int)
    | WhoDN(matcher: DNMatcher)
    | WhoDNAttribute(attribute: string)
    | WhoGroup(group: string)
    | WhoPeerName(connection: StringMatcher)
    | WhoSockName(connection: StringMatcher)
    | WhoDomain(connection: StringMatcher)
    | WhoSockURL(connection: StringMatcher)
    | WhoSet(setPattern: string)
    | WhoACI(aciAttribute: string)
    | WhoSSF(strength: Strength, minimum: int)

  datatype WhoMatcher = WhoMatcher(who: Who, authenticated: bool)

  datatype ByClause = ByClause(who: seq<WhoMatcher>, grant: Grant, control: Control)

  datatype Rule = Rule(order: int, target: TargetSelector, clauses: seq<ByClause>)

  datatype DatabaseRules = DatabaseRules(suffix: DN, rules: seq<Rule>, addContentACL: bool)

  datatype Policy = Policy(global: seq<Rule>, databases: seq<DatabaseRules>)

  // ----- what is asked -----

  datatype Subject = Subject(dn: string, realDN: string, peerName: string, sockName: string, domain: string,
                             sockURL: string, ssf: int, transportSSF: int, tlsSSF: int, saslSSF: int)

  datatype Entry = Entry(dn: string, attributes: map<string, seq<string>>)

  /** value is None for a nil slice; schema and normalizer say whether they are present. */
  datatype Target = Target(entry: Entry, attribute: string, value: Option<string>, dnValued: bool,
                           schema: bool, normalizer: bool)

  /** The captures a target pattern leaves for substitution. */
  datatype MatchContext = MatchContext(dn: seq<string>, value: seq<string>)

  /** What an EntryReader answers, or no reader at all. */
  datatype Reader = NoReader | Reader(get: DN -> Option<Entry>)

  /** An answer together with the DNs asked of the reader on the way. */
  datatype Looked = Looked(matched: bool, lookups: seq<DN>)

  /** Schema, filters, regular expressions and DN syntax, as deterministic functions. */
  datatype Services = Services(
    parseDN: (string, bool) -> Option<DN>,                 // text, with the schema-aware normalizer
    display: DN -> string,
    key: DN -> string,
    normalized: DN -> string,
    compiles: string -> bool,
    find: (string, string) -> Option<seq<string>>,         // pattern, text: submatches
    isOperational: string -> bool,
    classAllows: (string, string) -> Option<bool>,         // object class, attribute: None when unknown
    subtype: (string, string) -> bool,
    hasAttributeType: string -> bool,
    isDNValued: string -> bool,
    normalizeValue: (string, string) -> Option<string>,    // attribute, value
    compareValue: (bool, string, string, string, string) -> Option<int>,
    matchesFilter: (string, Entry, bool) -> Option<bool>,
    attributeValues: (Entry, string, bool) -> seq<string>,
    peerAddress: (string, string, bool) -> bool,             // pattern, peer name, IPv6
    group: (WhoMatcher, string, Target, Reader, MatchContext) -> Looked,
    set_: (WhoMatcher, string, Target, DN, Reader, MatchContext) -> Looked,
    membership: (string, string, DN, string, Target, Reader) -> Looked,  // object class, attribute, group, subject
    aciSet: (bool, string, string, Target, DN, Reader) -> Looked         // by reference, text, subject
  )

  // ----- the reader object -----

  /** A reader over a fixed store, with the calls made of it. */
  class EntryReader {
    const store: DN -> Option<Entry>
    ghost var calls: seq<DN>

    constructor (store: DN -> Option<Entry>)
      ensures this.store == store && calls == []
    {
      this.store := store;
      calls := [];
    }

    method Get(dn: DN) returns (entry: Option<Entry>)
      modifies this
      ensures entry == store(dn) && calls == old(calls) + [dn]
    {
      calls := calls + [dn];
      entry := store(dn);
    }
  }

  function View(reader: EntryReader?): Reader { if reader == null then NoReader else Reader.Reader(reader.store) }

  ghost function CallsOf(reader: EntryReader?): seq<DN>
    reads reader
  {
    if reader == null then [] else reader.calls
  }

  ghost function Footprint(reader: EntryReader?): set<object> { if reader == null then {} else {reader} }
}
