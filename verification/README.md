# A verified model of ldap-go's access control, security layer and LDIF replay

This project models the parts of the LDAP server and client tools whose correctness spans many functions, and proves
the properties they exist for. Each module follows one piece of the program; loops that update variables or fields are
methods proved against a function, and the promised properties are lemmas about those functions.

| modules | what they model |
|---|---|
| `AclTypes`, `AclNames`, `AclExpansion`, `AclMatching`, `AclPolicy` | rules, targets, subjects, and the decision with its reader trace |
| `AclTheorems`, `AclMasks`, `AclRuleLists`, `AclAskedTogether` | what holds of every decision |
| `AclDatabases` | building a policy from an unordered map, and picking the deepest suffix |
| `AclSets`, `AclSetText` | the set language of access rules: what it denotes, and its parser |
| `AclAci`, `AclAciTheorems` | access control stored in entries, level by level |
| `AciText`, `AciNormal`, `AciReadBack`, `AciTheorems`, `AciExamples` | the ACI text form, normalization and comparison |
| `DigestFrames`, `DigestRuns`, `DigestLayer` | the DIGEST-MD5 security layers (RFC 2831, sections 2.3 and 2.4) |
| `LdifLines`, `LdifFolding`, `LdifRecords`, `LdifParse`, `LdifRoundTrip`, `LdifFile`, `LdifReplay`, `LdifAccepted`, `Base64` | the failure file of the write tools, printed and read back (RFC 2849) |
| `LdapUrl`, `LdapUrlRoundTrip` | the LDAP URL tool (RFC 4516, section 2) |
| `IntegerKey`, `ObjectClasses` | the order-preserving integer index key and the object-class closure |
| `BerFrames`, `BerCuts` | reassembly of BER messages (X.690, section 8.1.3) |
| `ProxyListener` | the PROXY protocol listener as interleaved steps |
| `Text`, `Bytes` | string and byte helpers |

Some promises hold only under a condition the code itself does not check, and a few rules read differently from what
their names suggest. They are stated as the code has them:

- A failure file replays exactly when no modification writes values of an attribute named "control": the reader takes
  such a value line for a control (`LdifReplay.FailureFileReplays`, `LdifReplay.ControlAttributeDoesNotReplay`). The
  reader itself never produces such an operation, so whatever it accepted replays without exception; the failure concerns
  operations built some other way (`LdifAccepted.AcceptedExactly`, `LdifAccepted.AcceptedFileReplays`).
- Normalizing an ACI is idempotent exactly when its subject is not the empty DN, whose key is an empty subject that the
  parser refuses (`AciTheorems.NormalizeIsIdempotent`, `AciExamples.BlankSubjectIsNotNormalTwice`).
- A built LDAP URL reads back exactly when its host does not hold a single colon (`LdapUrlRoundTrip.BuiltUrlReadsBack`).
- To requests without a normalizer a policy is independent of map order exactly when suffix texts naming the same DN have
  the same rules (`AclDatabases.MapOrderFreeIffAgreeing`, `AclDatabases.TwoSpellings`). With a normalizer, which reads the
  suffixes again, the exact condition is about what they then cover (`AclDatabases.MapOrderFreeExactly`,
  `AclDatabases.MergedSuffixes`).
- Whatever the policy, asking for two sets of privileges together is asking for each exactly when the lists its ACI
  clauses may carry hold both sets or neither: a clause is skipped when it does not list everything asked for
  (`AclAskedTogether.AskedTogetherExactly`, `AclAskedTogether.AskedTogetherFailsWithAci`).
- The recorded responses and the leftover buffer do not depend on how a BER stream is cut exactly when no header in front
  of its last octet is malformed (`BerFrames.ChunksDoNotMatterExactly`); the responses alone do not exactly when no frame
  that would be recorded starts behind a malformed header (`BerCuts.CutsKeepResponsesExactly`,
  `BerFrames.ResynchronizationDependsOnChunks`).
- In a set expression "->" is refused right behind a name, since a hyphen is part of a name
  (`AclSetText.ArrowBehindName`).
- A onelevel ACI subject matches the parent of the DN it names and none of its children
  (`AclAciTheorems.SubjectsAreDistances`).
- A wrapped line reads back exactly when its first physical line stays below 1 MiB, or the whole of it when the width is
  not below 1 MiB (`LdifFolding.WrapReadBack`); the splitter admits a line of exactly 1 MiB that the unfolder then
  rejects (`LdifFolding.LineAtTheLimit`).

`dafny verify dfyconfig.toml` verifies the whole project.

## Model

| member | source | states |
|---|---|---|
| AclTheorems.BatchingIsSound | internal/acl/value_batch.go:11-44 | whenever the static scan accepts a policy, two targets that differ only in the value asked about, and any two readers, get the same decision by the same clauses, and the reader is never called; value substitutions in patterns included |
| AclTheorems.NothingBeyondMatchedGrants | internal/acl/policy.go:197-250 | when some rule list applies and access is allowed, the privileges asked for lie in the union of the grants of the clauses that were applied on the way, and each of those clauses belongs to a rule about the target and matched the subject; masks carried over break and continue and ACI clauses included |
| AclTheorems.AskedTogether | internal/acl/policy.go:182-251 | for a policy without ACI clauses, a set of privileges is allowed exactly when every split of it into two is allowed part by part |
| AclTheorems.AskedTogetherWhereListsAgree | internal/acl/policy.go:217-220 | the same for two privilege sets under any policy, reader and services as long as each clause with an ACI matcher lists both of them or neither |
| AclAskedTogether.AskedTogetherExactly | internal/acl/policy.go:182-251 | for any family of privilege lists and any two privilege sets p and q: all policies whose ACI clauses use lists of the family allow p and q together just when each is allowed, for every services, subject, target and reader, if and only if every list of the family holds both p and q or neither |
| AclAskedTogether.BreakingClauseDivides | internal/acl/policy.go:217-235 | the policy behind the second half: with an ACI clause listing L that breaks, followed by "* = all stop", a set inside L and one that is not are never decided part by part |
| AclAskedTogether.AskedTogetherFailsWithAci | internal/acl/policy.go:217-235 | a concrete policy with one ACI clause under which read and compare are each allowed but not together |
| AclTheorems.DefaultIsTheDecision | internal/acl/policy.go:52-67 | where the subject-independent default is reported applicable, it equals the full decision for every subject, attribute, value and reader, and no rule is applied and no entry read |
| AclMasks.LastWordDecides | internal/acl/policy.go:182-251 | without ACI clauses, a non-empty rule list allows a request exactly when the run ends at a stop clause and, for every privilege asked for, the last applied clause that gives or takes it gives it |
| AclMasks.FoldedIsLastWord | internal/acl/policy.go:1320-1333 | a privilege is on after a sequence of grants exactly when some grant gives it (set or add, listing it) and no later one takes it (set without it, or remove) |
| AclMasks.ClausesFold | internal/acl/policy.go:204-242 | the mask a run over static clauses ends with is the applied grants in order |
| AclNames.StylesAreDistances | internal/acl/policy.go:1297-1318 | exact, one, subtree, children and level styles hold exactly when the candidate lies 0, 1, any, at least 1, or the given number of levels below the DN; the level style never matches the root |
| AclAciTheorems.SubjectsAreDistances | internal/acl/aci.go:189-271 | access-id, subtree, children and self subjects match by the distance of the asking DN below the named one; a onelevel subject matches exactly the parent of the DN it names |
| AclRuleLists.UnmatchedRulesIrrelevant | internal/acl/policy.go:198-202 | rules that are not about the target can be dropped from a list without changing how the run ends, its mask, its applied clauses or its reads |
| AclRuleLists.BreaklessRuleDecides | internal/acl/policy.go:198-251 | a rule about the target none of whose clauses says break ends the search: whatever follows it in the list makes no difference (the implicit final deny of a rule) |
| AclRuleLists.DenialTakesEffect | internal/acl/policy.go:217-229 | an ACI denial removes privileges already held if and only if the mask grants nothing the clause lists (or none of the denied ones is held) |
| AclPolicy.Allowed | internal/acl/policy.go:182-251 | the nested rule and clause loops compute the decision function, and the reader has been asked for exactly the entries the function lists, in order |
| AclPolicy.EvaluateRules | internal/acl/policy.go:197-251 | the rule loop with its break flag and implicit denies computes the recursive decision over the rule list |
| AclPolicy.EvaluateClauses | internal/acl/policy.go:204-242 | the clause loop with stop, continue and break computes the recursive run over the clauses, with the mask, the applied clauses and the reads |
| AclPolicy.FindRules | internal/acl/policy.go:261-283 | the rules of the first covering database followed by the global ones, with the shortcuts for empty lists |
| AclMatching.CheckTarget | internal/acl/policy.go:299-330 | the target selector check and the captures it leaves, through the attribute loop |
| AclMatching.MatchesTargetAttribute | internal/acl/policy.go:370-430 | true exactly when some selector of the list selects the attribute, for every selector form |
| AclMatching.CheckMatchers | internal/acl/policy.go:511-530 | the matcher loop: the first matcher that fails ends it, ACI matchers add their masks, and all reads are in the trace |
| AclMatching.CheckWho | internal/acl/policy.go:502-551 | matcher loop, self-value checks and the rule that an ACI clause with an empty mask does not match |
| AclNames.FindDN | internal/acl/policy.go:1211-1250 | true exactly when some value of the attribute names the subject, as a DN or else by the matching rule |
| AclNames.DnAncestor | internal/acl/policy.go:1286-1295 | the ancestor that many levels up, none at or above the root |
| AclNames.Ancestor | internal/acl/policy.go:1286-1295 | the suffix with that many RDNs removed when the DN is deeper than the level, and none otherwise; a negative level changes nothing |
| AclTypes.EntryReader.Get | internal/acl/types.go:223-225 | a lookup returns the stored entry and is appended to the trace of calls |
| AclExpansion.HasExpansion | internal/acl/expansion.go:11-33 | true exactly when a substitution starts at some position |
| AclExpansion.ExpandPattern | internal/acl/expansion.go:35-76 | the scanning loop computes the expansion, or fails on an unclosed or malformed reference |
| AclExpansion.UnexpandedIsConstant | internal/acl/expansion.go:11-76 | a pattern in which hasACLExpansion finds nothing expands to the same text in every context |
| AclExpansion.ValueCapturesUnused | internal/acl/expansion.go:35-94 | unless a ${v...} reference occurs, the expansion depends on the DN captures alone |
| AclDatabases.SortDatabases | internal/acl/policy.go:1335-1341 | the in-place swaps leave the array equal to the stable insertion sort of its old contents by depth |
| AclDatabases.Bubble | internal/acl/policy.go:1337-1339 | the inner loop moves one element left past exactly the shallower ones, keeping all others in order |
| AclDatabases.SortedIsDeepestFirst | internal/acl/policy.go:1335-1341 | after sorting no database is followed by a deeper one |
| AclDatabases.Deepest | internal/acl/policy.go:261-283 | the choice is a database that passes the test, and no database that passes it is deeper |
| AclDatabases.SortedFindsDeepest | internal/acl/policy.go:261-283 | for any test on databases, the first match in the sorted list is the deepest match, ties going to the earliest in the unsorted list |
| AclDatabases.DeepestIsFound | internal/acl/policy.go:261-283 | so a request gets the rules of the deepest database covering its target, as it reads the suffixes, with a normalizer or without |
| AclDatabases.MapOrderFreeExactly | internal/acl/policy.go:20-42 | with a normalizer or without: any two enumerations of the configured map build policies giving every target the same rules if and only if equally deep suffixes of which one covers what the other reads as have the same sorted rules, unless a deeper suffix covers that too |
| AclDatabases.MapOrderFreeIffAgreeing | internal/acl/policy.go:20-42 | for requests without a normalizer that condition is that suffix texts naming the same DN have the same sorted rules |
| AclDatabases.MergedSuffixes | internal/acl/policy.go:261-283 | two suffixes that differ as parsed and that a normalizer reads as one: the order of the map matters to requests with the normalizer and to no other |
| AclDatabases.TwoSpellings | internal/acl/policy.go:27-42 | a concrete map whose order matters without a normalizer: two spellings of one DN, each with a rule of its own |
| AclDatabases.OrderFreeIffConsistent | internal/acl/policy.go:1335-1341 | for a list of databases: every permutation gives every target the same rules if and only if databases with equal suffixes have equal rules |
| AclDatabases.GatherDatabases | internal/acl/policy.go:27-39 | iterating the map in any order collects each suffix once, and fails exactly when some suffix is not a DN |
| AclDatabases.NewPolicy | internal/acl/policy.go:20-42 | the policy is the sorted rules and sorted databases of some enumeration of the map; an error exactly when a suffix is not a DN |
| AclDatabases.RulesOrderIrrelevant | internal/acl/policy.go:20-42 | two policies built from two enumerations of the same map give every target the same rules when suffixes naming the same DN have the same rules, in particular when suffixes are distinct |
| AclDatabases.RulesOrderIrrelevantUnder | internal/acl/policy.go:261-283 | two policies built from two enumerations of the map give every target the same rules under that condition, whatever a normalizer makes of the suffixes |
| AclDatabases.DecisionOrderIrrelevant | internal/acl/policy.go:182-251 | and therefore the same decisions, for every request, with a normalizer or without, under the same condition |
| AclSets.Evaluate | internal/acl/policy.go:894-943 | returns exactly the denoted set (union, intersection, pairwise concatenation, one-step image, transitive closure, ancestors) and fails exactly when a union, intersection, chase or concatenation product exceeds 10000; ends on cyclic references; maps are iterated in arbitrary order, so the result does not depend on it |
| AclSets.ChaseSet | internal/acl/policy.go:983-1014 | the worklist returns everything reached in one step, or with closure in any positive number of steps, and fails exactly when that is not a set of at most 10000 members |
| AclSets.Absorb | internal/acl/policy.go:997-1008 | the inner loop adds the gathered members and queues the new ones, or finds more than 10000 |
| AclSets.NothingMissing | internal/acl/policy.go:995-1013 | once every starting member, and with closure every result, has been processed, the result holds all that is reached and nothing else |
| AclSets.JoinSets | internal/acl/policy.go:945-981 | union, intersection and concatenation of two sets; the quotient test for concatenation fails exactly when the product of the sizes exceeds the limit |
| AclSets.ConcatAll | internal/acl/policy.go:970-975 | the nested loops give the set of all joined pairs |
| AclSets.ParentSet | internal/acl/policy.go:1065-1099 | the DN members at the level, or with all parents each DN and every ancestor up to the root; other members contribute nothing |
| AclSets.AncestorAllowRoot | internal/acl/set.go:423-432 | the ancestor that many levels up, the root included, none beyond it |
| AclSets.HasMembers | internal/acl/policy.go:875-884 | the value of the expression is not empty exactly when the expression stays within the limits and denotes at least one member |
| AclSetText.MatchesSet | internal/acl/policy.go:855-885 | a set clause matches exactly when its pattern expands, the text parses, and the expression stays within the limits and denotes at least one member |
| AclSetText.TextReadsBack | internal/acl/set.go:76-238 | the printed text of any expressible expression parses to that expression, unless its parentheses nest more than 64 deep, and then to nothing |
| AclSetText.ParsedExactly | internal/acl/set.go:76-238 | the parser produces exactly the expressible trees (no "]" in a literal, a non-empty name not starting with a hyphen, a level up to 10000) that need at most 64 nested parentheses, and reads each of them back from its own printed text |
| AclSetText.ArrowBehindName | internal/acl/set.go:166-228 | "/" followed by a name chases that attribute behind any operand; "->" does so too unless the operand ends in a name, which swallows the hyphen so that the text is refused |
| AclSetText.Parser.ParseOperand | internal/acl/set.go:120-214 | the parser object moves to where the grammar says and returns its expression at the same nesting depth, or fails when the grammar does |
| AclSetText.Parser.ParseSteps | internal/acl/set.go:166-213 | the loop over chase and parent steps behind an operand |
| AclSetText.Parser.ParseExpression | internal/acl/set.go:89-118 | the operator loop builds the left-leaning expression up to the end or a closing parenthesis |
| AclSetText.ParseSet | internal/acl/set.go:76-87 | a whole text is accepted exactly when the grammar covers all of it |
| AclAciTheorems.NearestLevelDecides | internal/acl/aci.go:17-62 | the mask is that of the nearest level with a non-zero mask, the entry with entry scope and then ancestors with children scope, all nearer levels being readable; it is zero exactly when no level decides, the search stopping at an unreadable ancestor and below the root |
| AclAciTheorems.DirectoryOrderIrrelevant | internal/acl/aci.go:17-92 | reordering or repeating attribute values anywhere in the directory does not change the mask |
| AclAciTheorems.OrderIrrelevant | internal/acl/aci.go:64-92 | the mask of a list of values depends only on which values occur in it |
| AclAciTheorems.ValuesMaskIsUnion | internal/acl/aci.go:64-92 | a privilege is granted or denied by a list of values exactly when one of them grants or denies it |
| AclAciTheorems.NormalizeKeepsMask | internal/acl/aci.go:105-164 | replacing an ACI by its normalized text leaves its grant and deny masks and its reads unchanged for every request and every kind of subject, when the subject means the same in canonical form: always for public, users, self, set and set-ref; for DN subjects when the non-empty key reads back as the same DN; for group and role when also a substitution in the text and one in the key lead to the same group and names are read case aside; for dnattr when the lower-case trimmed name is the same attribute |
| AclAciTheorems.OutrightGroupKept | internal/acl/aci.go:229-252 | a group or role whose text and key hold no substitution meets the condition on substitutions in every context |
| AclAci.EvaluateACIMatcher | internal/acl/aci.go:17-62 | the method computes the mask function and the reader has been asked for exactly the entries it lists |
| AclAci.EvaluateAncestors | internal/acl/aci.go:41-61 | the walk over the parent variable computes the recursive climb |
| AclAci.EvaluateACIValues | internal/acl/aci.go:64-92 | the accumulating loop computes the union over the values that parse and have the asserted scope |
| AclAci.AciValueMask | internal/acl/aci.go:105-131 | the permissions that apply, or nothing when none does or the subject does not match |
| AclAci.FindSelector | internal/acl/aci.go:133-164 | true exactly when some selector covers the attribute and, if it names one, the value or its prefix, case aside |
| AciTheorems.NormalizedReadsBack | internal/aci/aci.go:79-358 | parsing the normalized text gives the canonical form of the original value, and fails exactly when the canonical subject is a DN key that is empty or does not parse |
| AciTheorems.NormalizeIsIdempotent | internal/aci/aci.go:296-358 | given that non-empty DN keys read back as themselves, normalizing twice is normalizing once if and only if the subject is not the empty DN |
| AciExamples.BlankSubjectIsNotNormalTwice | internal/aci/aci.go:297-358 | a concrete ACI with a blank DN subject that normalizes once but whose normalized text does not parse |
| AciTheorems.CompareDecidesCanonicalEquality | internal/aci/aci.go:360-370 | two ACIs that parse compare equal if and only if their canonical values are the same |
| AciTheorems.RenderedReadsBack | internal/aci/aci.go:79-358 | every value the parser can produce is read back from its printed form, field by field |
| AciTheorems.ParsedIsPlain | internal/aci/aci.go:79-294 | what the parser produces: a numeric OID, at least one action each with clauses of non-empty rights and selectors, numbered in order, and a subject type with non-empty trimmed options |
| AciNormal.Normalize | internal/aci/aci.go:296-358 | the builder loops print the canonical form of the parsed value, or fail when it does not parse |
| AciNormal.WritePermissions | internal/aci/aci.go:313-346 | the loop over the flat permission list with its new-action test prints the canonical permission field |
| AciNormal.WriteSelectors | internal/aci/aci.go:329-345 | the selector loop prints the canonical selectors joined by commas |
| AciText.ParsePermissions | internal/aci/aci.go:187-229 | the nested loops build the flat, numbered list of the actions and clauses in the text, or fail where one is malformed |
| AciText.ParseAttributeSelectors | internal/aci/aci.go:261-294 | the loop reads every selector, or fails on the first bad one |
| AciText.ParseRights | internal/aci/aci.go:231-259 | the set of single letters in the text, or failure |
| AciText.WriteRights | internal/aci/aci.go:372-395 | the letters present, in the fixed order, separated by commas |
| AciText.RightsReadBack | internal/aci/aci.go:231-395 | any non-empty set of rights is read back from its printed form |
| AciText.ValidNumericOID | internal/aci/aci.go:435-451 | true exactly for dotted digits with no dot at an end and no two in a row |
| AciText.ParseValue | internal/aci/aci.go:79-109 | the loops together compute the parse function |
| AciReadBack.ActionsPrinted | internal/aci/aci.go:313-346 | the flat list with its action numbers prints as the actions joined by $ |
| DigestRuns.ReadsArePrefixOfWrites | cmd/ldap-go/client_sasl.go:506-593 | for every run of Write and Read calls, any cuts by the transport and any buffer sizes, in all modes: the octets read are a prefix of those written, no frame is ever refused, and the sequence numbers never pass 2^32 |
| DigestRuns.DrainedMeansAllRead | cmd/ldap-go/client_sasl.go:573-698 | when nothing is pending and no complete frame waits, everything counted as written has been read, and unless the transport failed both ends hold the same sequence number, RC4 position and CBC block |
| DigestRuns.ReadMakesProgress | cmd/ldap-go/client_sasl.go:573-593 | a read with room returns at least one octet exactly when something written has not been read |
| DigestRuns.FullDuplex | cmd/ldap-go/client_sasl.go:506-593 | in any interleaving of the calls of two mirrored ends, each direction delivers a prefix of what was accepted |
| DigestRuns.NegotiatedAgree | cmd/ldap-go/client_sasl.go:340-381 | the limits two ends compute from one buffer size satisfy what the run theorems ask of them |
| DigestFrames.FrameReadBack | cmd/ldap-go/client_sasl.go:533-698 | a frame opened with the state it was sealed with gives back its message, its length and the next state of the writer |
| DigestFrames.PartialFrameWaits | cmd/ldap-go/client_sasl.go:625-641 | any proper prefix of a frame is waited for, never refused |
| DigestFrames.FramesFitBuffer | cmd/ldap-go/client_sasl.go:340-381 | for every buffer both ends accept, every frame either layer writes passes the length and block checks of the receiver with that buffer, and opens |
| DigestFrames.IntegrityBufferTight | cmd/ldap-go/client_sasl.go:738-776 | the largest integrity frame fills the buffer exactly, and any smaller receive limit refuses it |
| DigestFrames.CbcRoundTrip | cmd/ldap-go/client_sasl.go:457-479 | CBC decryption from the same initial block undoes CBC encryption |
| DigestFrames.OpenUndoesSeal | cmd/ldap-go/client_sasl.go:556-565 | opening undoes sealing in every mode |
| DigestLayer.Establish | cmd/ldap-go/client_sasl.go:323-422 | no connection exactly when a buffer check fails, and otherwise one with the keys, counters and limits of a fresh layer |
| DigestLayer.SecurityLayer.constructor | cmd/ldap-go/client_sasl.go:323-422 | keys, counters and limits of a fresh layer, once the buffer checks have passed |
| DigestLayer.SecurityLayer.EncodeFrame | cmd/ldap-go/client_sasl.go:533-571 | the frame filled in place is header, sealed padded message with its MAC, type and sequence number, and the sending cipher has moved on |
| DigestLayer.SecurityLayer.SendChunk | cmd/ldap-go/client_sasl.go:513-529 | one iteration of Write: a frame handed over whole counts and advances the state, one cut off does not |
| DigestLayer.SecurityLayer.Write | cmd/ldap-go/client_sasl.go:506-531 | Write sends the value in chunks as the run specification says, and reports how much went out whole |
| DigestLayer.SecurityLayer.OpenMessage | cmd/ldap-go/client_sasl.go:653-698 | the deciphered body with padding and MAC checked, or the error |
| DigestLayer.SecurityLayer.ReadOneFrame | cmd/ldap-go/client_sasl.go:625-698 | reads one frame as the specification says: the message, waiting, or the error, with the receiving state moved on |
| DigestLayer.SecurityLayer.Read | cmd/ldap-go/client_sasl.go:573-593 | Read fills the front of the buffer from pending octets and frames as the specification says and leaves the rest of the buffer alone |
| DigestLayer.WriteFrame | cmd/ldap-go/client_sasl.go:842-856 | the loop over partial writes puts a prefix of the frame on the wire, the whole of it exactly when it succeeds |
| DigestLayer.CbcInPlace | cmd/ldap-go/client_sasl.go:457-479 | the stretch is replaced by its CBC image (one call of the library CBC mode), the rest of the buffer is untouched, and the last ciphertext block becomes the next initial block |
| DigestLayer.CbcPaddingLength | cmd/ldap-go/client_sasl.go:700-719 | without early exits, finds well-formed padding exactly when it is there, and its length |
| LdifReplay.FailureFileReplays | cmd/ldap-go/client_write.go:1725-1815 | every failure file within the size limits is split into one record per operation, and record i parses to operation i with its controls, in order, exactly when no modification writes values of an attribute named "control"; those records are rejected |
| LdifAccepted.AcceptedReadBack | cmd/ldap-go/client_write.go:731-852 | every operation the reader accepts from any record, whatever its attributes are called, is read back from its own printed record, by a reader in any state |
| LdifAccepted.AcceptedExactly | cmd/ldap-go/client_write.go:731-852 | the operations the reader can produce are exactly the valid ones with byte strings for values, controls whose encoded value it takes, and no values of an attribute named "control" |
| LdifAccepted.AcceptedFileReplays | cmd/ldap-go/client_write.go:1725-1815 | a failure file of operations that were read from records, within the size limits, is read back as those operations in order, without exception |
| LdifReplay.RecordReadBack | cmd/ldap-go/client_write.go:731-852 | one printed record, unfolded and parsed, gives back its operation, or is rejected in the case above |
| LdifReplay.OperationReadBack | cmd/ldap-go/client_write.go:787-852 | the logical lines of an operation parse to that operation and its controls, exactly when no value line is named "control" |
| LdifReplay.ControlAttributeDoesNotReplay | cmd/ldap-go/client_write.go:787-813 | a concrete operation that does not replay: a modification of an attribute named "control" |
| LdifRoundTrip.AttributeLineParses | cmd/ldap-go/client.go:4324-4356 | every value, empty, printable or in base64, is read back from its line, and never as a file reference |
| LdifRoundTrip.ControlParses | cmd/ldap-go/client_write.go:918-979 | a control is read back from its text, critical or not, with or without a value |
| LdifFolding.FoldReadBack | cmd/ldap-go/client.go:4362-4389 | unfolding a line folded at any width from 2 gives the line back |
| LdifFolding.WrapReadBack | cmd/ldap-go/client_ldif_wrap.go:61-92 | unfolding a line wrapped at any configured width from 1, behind any prefix, gives it back if and only if the prefix is shorter than the 1 MiB limit of the reader, for widths below that limit, or the whole line is, for widths from it on |
| LdifFolding.ConfiguredReadBack | cmd/ldap-go/client_ldif_wrap.go:41-59 | the same at the prefix the writer really passes, the attribute with its mark, for every line that is no comment |
| LdifLines.WriteConfiguredLine | cmd/ldap-go/client_ldif_wrap.go:41-59 | finds the prefix of an attribute line or a comment and writes the wrapped physical lines |
| LdifFolding.FitsExactly | cmd/ldap-go/client_ldif_wrap.go:61-92 | every physical line of a wrapped line is below the limit exactly under that condition on prefix, width and line |
| LdifFolding.LineAtTheLimit | cmd/ldap-go/client_write.go:1303-1421 | a line of exactly 1 MiB is admitted by the record splitter as one record and rejected by the unfolder |
| LdifFolding.WrapWidth | cmd/ldap-go/client_ldif_wrap.go:61-92 | at any width from 1, no continuation line is longer than the width or two octets, whichever is more, and the first is excused when its prefix alone is longer |
| LdifLines.WriteFoldedLine | cmd/ldap-go/client.go:4362-4389 | the re-slicing loop writes the folded physical lines, at widths from 2; its callers pass 78 or 79 |
| LdifLines.WriteWrappedLine | cmd/ldap-go/client_ldif_wrap.go:61-92 | the column loop writes the wrapped physical lines; it ends and its unsigned subtraction never goes below zero |
| LdifLines.LogicalLines | cmd/ldap-go/client_write.go:1303-1343 | the loop unfolds continuation lines and drops comments, or rejects a bad continuation or a line at the limit |
| LdifLines.SplitRecordsWithLines | cmd/ldap-go/client_write.go:1362-1421 | the loop splits at blank lines with the number of each first line, or reports which limit is exceeded |
| LdifParse.ParseWriteRecord | cmd/ldap-go/client_write.go:731-765 | version header and DN line, and what they leave to parse |
| LdifParse.ReadControlLines | cmd/ldap-go/client_write.go:787-803 | the control lines in front of the change |
| LdifParse.ParseLines | cmd/ldap-go/client_write.go:767-852 | controls, change type and the parser it selects |
| LdifParse.ParseModifyRecord | cmd/ldap-go/client_write.go:1029-1105 | the changes of a modify record, value lines up to each separator |
| LdifParse.ReadValueLines | cmd/ldap-go/client_write.go:1070-1083 | the value loop stops at a "-" line or the end and rejects values of another attribute |
| LdifRecords.WriteOperation | cmd/ldap-go/client_write.go:1725-1815 | prints the record of an operation line by line, or refuses an invalid control |
| Base64.RoundTrip | cmd/ldap-go/client_write.go:1275-1301 | both decoders read back what was encoded, for every byte string |
| LdapUrlRoundTrip.BuiltUrlReadsBack | cmd/ldap-go/client_url_tool.go:190-376 | for every host needing no escape, port 1 to 65535 and texts without NUL, with non-empty comma-free attributes and non-empty extensions, parsing the built URL gives back the description (unset scope as base) if and only if the host does not hold exactly one colon |
| LdapUrlRoundTrip.EscapeReadBack | cmd/ldap-go/client_url_tool.go:190-267 | percent-decoding undoes percent-encoding on any bytes, whatever extra character is escaped |
| LdapUrlRoundTrip.OneColonFails | cmd/ldap-go/client_url_tool.go:302-320 | a host with one colon is cut short and its rest refused as a port |
| LdapUrlRoundTrip.ListReadBack | cmd/ldap-go/client_url_tool.go:186-188 | non-empty comma-free items joined by commas are listed back |
| LdapUrl.BuildUrl | cmd/ldap-go/client_url_tool.go:207-256 | the builder steps compute the URL, or refuse a bad port or a host that needs escaping |
| LdapUrl.EscapeText | cmd/ldap-go/client_url_tool.go:190-205 | the byte loop computes the escaped text |
| LdapUrl.ReadUrl | cmd/ldap-go/client_url_tool.go:269-376 | the steps on the descriptor compute the parse function |
| LdapUrl.FillQuery | cmd/ldap-go/client_url_tool.go:345-375 | the fields after the slash fill the descriptor one by one, or fail on a bad scope, filter or empty extension list |
| IntegerKey.KeyOrder | cmd/ldap-go/restore_validation.go:675-699 | keys compare byte by byte as the integers compare, both ways, for all integers of at most 2^32-1 digits |
| IntegerKey.KeyInjective | cmd/ldap-go/restore_validation.go:675-699 | two integers have the same key exactly when they are equal |
| IntegerKey.SortableInteger | cmd/ldap-go/restore_validation.go:675-699 | the appending loop computes the key, or reports a text that is no integer or too long |
| IntegerKey.DigitsDenote | cmd/ldap-go/restore_validation.go:675-699 | the decimal digits written for a number denote it |
| ObjectClasses.ExpandObjectClasses | cmd/ldap-go/restore_validation.go:623-649 | exactly the case-folded names reachable through superiors, each once, every one listed or brought in by an earlier one; ends on cyclic superiors |
| ObjectClasses.Expansion.Add | cmd/ldap-go/restore_validation.go:627-644 | adding a class leaves the seen set closed under superiors for everything newly seen |
| BerFrames.ChunkingIrrelevant | cmd/ldap-go/client.go:1042-1144 | for a stream with valid headers, every chunking leaves the same responses and leftover as one read |
| BerFrames.ChunksDoNotMatterExactly | cmd/ldap-go/client.go:1042-1144 | for any data, every chunking leaves the same responses and leftover as one read if and only if the data is empty or the headers in all of it but the last octet are valid |
| BerCuts.CutsKeepResponsesExactly | cmd/ldap-go/client.go:1042-1144 | for any data, ids and decoder: the recorded responses alone are the same under every chunking if and only if nowhere behind a malformed header a frame starts that would be recorded |
| BerFrames.FramesArriveOnce | cmd/ldap-go/client.go:1056-1144 | messages framed by the length writer are recorded once each, in order, with nothing left over, in any chunks |
| BerFrames.LengthOctetsReadBack | cmd/ldap-go/client_extended.go:1327-1351 | a header written for n octets of content is read back as 1 + size + n for every n up to 256 MiB, and refused above |
| BerFrames.ResynchronizationDependsOnChunks | cmd/ldap-go/client.go:1058-1062 | after a malformed header the recorded responses do depend on the chunks |
| BerFrames.Observer.ObserveRead | cmd/ldap-go/client.go:1042-1144 | the consuming loop computes the specification on buffer and responses |
| BerFrames.FrameLength | cmd/ldap-go/client.go:1155-1184 | whether a header is bad, unfinished or complete, and the total it announces |
| BerFrames.AppendLength | cmd/ldap-go/client_extended.go:1338-1351 | the array filled backwards appends the length octets |
| BerFrames.LengthSize | cmd/ldap-go/client_extended.go:1327-1336 | the number of octets appendLDAPBERLength writes |
| ProxyListener.EveryConnectionInOnePlace | cmd/ldap-go/lloadd.go:638-693 | in every interleaving each connection the source returned is in exactly one place (the accept loop, one prepare, one Accept result, or closed), and at most 128 prepares run |
| ProxyListener.DeliveredWasVetted | cmd/ldap-go/lloadd.go:668-684 | Accept only returns connections that were authorized and whose header was read |
| ProxyListener.ClosedRunEnds | cmd/ldap-go/lloadd.go:686-693 | after Close every run ends: its length is bounded by the work left and the new Accept calls |
| ProxyListener.ClosedMaximalRunHoldsNothing | cmd/ldap-go/lloadd.go:686-693 | a closed run that cannot go on holds no connection: each was delivered once or closed once |

## Left out

- Go strings are sequences of bytes here; case folding and white space are those of ASCII, so Unicode folding and Unicode spaces are not modelled.
- Privilege bit masks are sets of the eight defined privileges, ACI rights sets of six; undefined bits are not modelled.
- A DN is the sequence of its normalized RDNs; parsing, display, key and normalized text are deterministic functions of it, so the comparison of schema-aware with plain DNs and the DN library itself are not modelled.
- Regular expressions, schema, filters, IP patterns and matching rules are deterministic functions; so is the decoding of a BER packet.
- Group and set matchers inside a decision are abstract answers with the reads they make, and so is membership in the group of an ACI once its DN is known; the set language is modelled on its own, for schema-aware requests, with gathering an arbitrary finite relation. The plain-text twin of its evaluator in `internal/acl/set.go` is not modelled.
- In the set language the text of a DN member is taken to be a function of its identity, as it is for values read under one normalizer.
- ACL rule parsing, `Validate` and a nil policy are not modelled; `sort.SliceStable` is a stable insertion sort.
- Error texts and which of several errors is reported first are not modelled for ACI text and ACL sets.
- MD5, HMAC, RC4, DES and the DES key slide are arbitrary functions, DES decryption undoing encryption; nothing is claimed about cryptographic strength.
- The two DIGEST-MD5 connection types are one class with a mode; locks, deadlines, Close and the clearing of secrets are left out. A blocking header read is an outcome "would block" that consumes nothing.
- DigestLayer.WriteFrame: a transport reports an error only when it stopped early, and then takes nothing more. A Write tried again after an error would reuse the sequence number while the cipher has moved on, and what the peer makes of that rests on the strength of the MAC, which is abstract here.
- LDIF add, delete and content records and `:<` file values are recognized but not parsed further; write errors and the general controls of an operation are not modelled.
- DN and RDN validity in LDIF records are abstract verdicts.
- The request side of the search observer and its locks are not modelled.
- PROXY header parsing is a nondeterministic verdict; that a header read ends rests on the read deadline the source sets.
- Command-line handling, output, TLS, dialing, backups, pid files, privileges and the web console are not modelled.
- AciTheorems.NormalizeIsIdempotent: needs that a non-empty DN key read as a DN has itself as its key, which the DN library is to provide; without it AciTheorems.NormalizedReadsBack still says exactly when the round trip holds.
- AclAciTheorems.NormalizeKeepsMask: rests on conditions on the subject that the DN library and the schema are to provide, and for a group or role whose text holds a substitution on what its key expands to.
- LdifFolding.FoldReadBack: the default writer is taken at widths from 2 to the reader's limit; its callers pass 78 or 79, and at width 1 the loop would not advance.
- LdifLines.WriteFoldedLine: takes widths from 2, for the same reason.
