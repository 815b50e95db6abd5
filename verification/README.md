# A verified model of the authorization agent's core

The authorization agent decides requests from policies it pulls from an access-control
service. This project models, in Dafny, the parts of it whose correctness is least obvious
from the code, and proves what they promise. `dafny verify dfyconfig.toml` checks all of it.

- **The attribute lexer** of the condition language. A token is defined by a regular
  expression matched leftmost-longest; the lexer finds it with two tables and one scan.
- **Exact decimals**: parsing, the order of two decimals, and two printers. Values are
  rational numbers, stated with `real`.
- **JSONPath selection** under a budget of work that weighs the document only as far as it
  must, and the translation of a `java.util.regex` bracket class into Go's syntax.
- **Value records**: keys compared instead of values, the folded text of a list built from
  its elements, and a bound on what a record holds.
- **The policy tree**: how an exported policy set becomes a tree, which conditions may read
  the variable of an iterate, and the checker that admits a tree.
- **The exact JSON filter**: where the containers of a text end, and the filter that keeps
  the last member of each named field by stepping over offsets.
- **Token verification**: the claim checks of sections 4.1.3 to 4.1.6 of RFC 7519, the cache
  of verified tokens, and the signing keys of the providers over loads and reloads.
- **Simplified policies**: their conversion to exported policy sets and back, their
  normalized maps, and the two indexes of the subject attributes they read.

Code that changes state keeps that form: the scanner, the budget, the ordered object, the
checker, the set builder, the filter, the cache, the verifier, the key set, the target
scanner, and the normalizer are classes, and loops are methods proved against a function or a
predicate. What the code takes from elsewhere is a parameter: Unicode tables, number texts,
signatures, digests, the splitting of a condition into tokens, and what a fetch brings. A
predicate beside each parameter says what is taken for granted of it.

Where the code and its description differ, the model follows the code:

- A decimal's text is accepted again only while the exponent of its first digit is within
  2^60; `DecimalPrinters.StringRoundTrip` states the exact condition, and
  `DecimalPrinters.AcceptedOnce` gives an accepted text whose decimal is printed beyond it.
- The BigDecimal text of an accepted text is refused when it needs an exponent above 2^60;
  `BigDecimals.BigTextIsStable` states the exact condition, and
  `BigDecimals.ShortTextsStayInRange` that no text shorter than 2^59 reaches it.
- A simplified policy does not always come back with its roles: a single empty role is lost
  (`V3RoundTrips.EmptyRoleIsLost`), a role with a comma becomes two
  (`V3RoundTrips.CommaRoleIsSplit`), and so does one that closes its quotes and opens another
  clause (`V3RoundTrips.QuoteRoleIsSplit`). `V3RoundTrips.ComesBackIff` states the exact
  condition: no role is blank or holds a quote or a comma, and the resource type and the
  operation can be named.
- The indexes of subject attributes agree on every rule set exactly when no alias or short
  name is empty: `Activations.ActivatedAreIndexed` one way, `Activations.EmptyAliasDiffers`
  the other.

## Model

| member | source | states |
|---|---|---|
| AttrToken.AcceptsIffMatches | internal/policyir/token_test.go:25-34 | the automaton, of five kinds of state two of which carry a flag, accepts a text exactly when the regular expression of the attribute token matches it |
| AttrToken.AttrScanner.constructor | internal/policyir/token.go:24-60 | the two tables hold, for every index, where the run of token characters ends and where an opened bracket part ends, if any text ends it |
| AttrToken.AttrScanner.TokenLen | internal/policyir/token.go:64-99 | for every text and position the scan returns the length of the longest match of the regular expression there, and 0 exactly when none matches |
| Decimals.NewDecimalValue | internal/jsonvalue/decimal.go:127-134 | trimming zeros on either side of a coefficient keeps the number it denotes |
| Decimals.CompareIsSignOfDifference | internal/jsonvalue/decimal.go:168-207 | the comparison by adjusted exponent and digit text is the sign of the exact difference, and 0 exactly for identical decimals |
| DecimalTexts.NumeralUnique | internal/jsonvalue/decimal.go:61-123 | a text is written by at most one numeral of the grammar, so what a text denotes is well defined |
| DecimalTexts.CompareNumerals | internal/jsonvalue/decimal.go:122-207 | two numerals compare as the rational numbers they write, and give one decimal exactly when they write one number |
| DecimalTexts.ReadExponent | internal/jsonvalue/decimal.go:103-111 | the digit loop stops with the exponent's value, or with a refusal exactly when the value exceeds 2^60 |
| DecimalTexts.ParseExponent | internal/jsonvalue/decimal.go:95-121 | the text after the mantissa is an exponent exactly when it is a mark, an optional sign, and digits of a value up to 2^60, to the end |
| DecimalTexts.ParseDecimal | internal/jsonvalue/decimal.go:61-123 | the cursor loop accepts exactly the numerals of the grammar in range, and returns the decimal and the scale the numeral denotes |
| DecimalPrinters.StringRoundTrip | internal/jsonvalue/decimal.go:213-244 | the text of a decimal is accepted exactly while its adjusted exponent is within 2^60, and then parses to the same decimal, in all four layouts |
| DecimalPrinters.AcceptedOnce | internal/jsonvalue/decimal.go:103-111 | the text 12e1152921504606846976 is accepted, and the text of its decimal is not |
| DecimalPrinters.StringInjective | internal/jsonvalue/decimal.go:209-244 | two decimals with one text are one decimal, at any exponent |
| BigDecimals.ParseBigDecimal | internal/jsonvalue/decimal.go:54-57 | accepts exactly the decimal texts whose scale is in the range of a 32-bit integer |
| BigDecimals.BigTextIsStable | internal/jsonvalue/bigdecimaltext.go:22-102 | the text is accepted again exactly while its exponent is in range, and has then the same value and scale and is the text of itself |
| BigDecimals.ShortTextsStayInRange | internal/jsonvalue/bigdecimaltext.go:65-71 | no accepted text shorter than 2^59 leads to an exponent out of range |
| BigDecimals.ScanMantissa | internal/jsonvalue/bigdecimaltext.go:39-51 | the scan collects all digits of the mantissa and counts those after the point |
| BigDecimals.ScanNumber | internal/jsonvalue/bigdecimaltext.go:32-64 | the second scan reads the sign, digits, fraction count, and exponent that the numeral has |
| BigDecimals.BigDecimalText | internal/jsonvalue/bigdecimaltext.go:28-102 | refused exactly where the parser refuses, and otherwise the text of the coefficient and scale the input denotes |
| JsonValues.SetMemberGet | internal/jsonvalue/value.go:49-57 | setting a key changes the value of that key only, and keys stay distinct |
| JsonValues.ObjectBuilder.Set | internal/jsonvalue/value.go:51-57 | a key already held keeps its place and takes the new value, another is added last |
| JsonValues.ObjectBuilder.Lookup | internal/jsonvalue/value.go:59-63 | the value found is that of the member of the key, and none is found exactly when there is none |
| Budgets.WeighUpTo | internal/jsonpath/budget.go:117-141 | the weight is exact when it is within the limit, and otherwise a part of it above the limit |
| Budgets.Budget.Admits | internal/jsonpath/budget.go:62-73 | however little of the document has been weighed, work is admitted exactly when the whole weight admits it |
| Budgets.Budget.Charge | internal/jsonpath/budget.go:53-56 | a charge is accepted exactly when the total so far is within 4 times the whole weight plus 4096 |
| Budgets.Budget.ChargeWeight | internal/jsonpath/budget.go:77-90 | charging a weight without reading all of it answers as charging the whole weight does |
| JsonPaths.Walk | internal/jsonpath/jsonpath.go:461-488 | the members of a key at any depth are appended in order, and the walk pays one for each value it visits |
| JsonPaths.VisitStep | internal/jsonpath/jsonpath.go:317-432 | one step on one value selects, ends, and pays as the budget-free step does |
| JsonPaths.SweepStep | internal/jsonpath/jsonpath.go:305-434 | one step over the frontier selects and pays as the budget-free sweep does, and is refused exactly when the total exceeds the budget |
| JsonPaths.SweepOfOne | internal/jsonpath/jsonpath.go:301-446 | while one value is selected, a step that does not spread leaves exactly one value |
| JsonPaths.Select | internal/jsonpath/jsonpath.go:295-447 | the result is too large exactly when the work of the budget-free evaluation exceeds the budget, and otherwise that evaluation's result |
| JsonPathProperties.SelectionIsBounded | internal/jsonpath/jsonpath.go:435-446 | without a function step, what is selected is part of the document, and several values together weigh at most the budget |
| CharClasses.WriteSpan | internal/jsonpath/filter.go:669-676 | the part of a range that meets a block of letters is added in the other case, and nothing else |
| CharClasses.WriteRange | internal/jsonpath/filter.go:667-677 | the text written for a range matches the range and, with the flag i, the letters of the range in their other case, also where it straddles both blocks |
| CharClasses.TranslateItems | internal/jsonpath/filter.go:647-681 | the items of the class are translated up to its bracket, or refused exactly where one of them is |
| CharClasses.CharClass | internal/jsonpath/filter.go:636-684 | the translated class, as Go reads it, matches exactly the characters of the class as written, in either ASCII case with the flag i, and the others when it is negated |
| Quoting.QuoteUnique | internal/legacyvalue/record.go:259-308 | a quoted string at the start of a text is read in one way |
| StructureKeys.KeyIffSameStructure | internal/legacyvalue/record.go:259-308 | two values have one key exactly when they have one structure: objects as maps, lists in order, strings by text, numbers by value or else by text |
| StructureKeys.KeyUnique | internal/legacyvalue/record.go:269-308 | keys followed by any text are read in one way, so no key is the start of another's reading |
| LegacyTexts.FoldText | internal/legacyvalue/javatext.go:30-46 | the two ASCII shortcuts give the general case mapping |
| LegacyTexts.FoldConcat | internal/legacyvalue/javatext.go:26-46 | folding is a homomorphism for concatenation |
| LegacyRecords.Classify | internal/legacyvalue/record.go:246-257 | one more element updates the state and the class of the list read so far |
| LegacyRecords.ListDirect | internal/legacyvalue/record.go:182-193 | the record read directly from a list |
| LegacyRecords.ListWithElements | internal/legacyvalue/record.go:201-242 | the record built from the records of the elements has the state, class, type, key, case key, and element keys of the record read directly, the set key, and the element records |
| LegacyRecords.Of | internal/legacyvalue/record.go:139-164 | both ways of reading a value, with and without element records |
| LegacyRecordProperties.SetKeyIffSameSet | internal/legacyvalue/record.go:195-242 | two non-empty lists have one set key exactly when each element of either has the structure of one of the other |
| LegacyRecordProperties.RecordIsSmall | internal/legacyvalue/record.go:123-127 | at any nesting, the texts of a record and its element records total at most 6 times the text and 2 times the key of the value |
| PolicyConditions.ScansAsScopeToken | internal/policyir/parse.go:634-637 | the scanner reads the key of a permission scope to the end exactly when the key is one attribute token |
| PolicyConditions.BuiltCondition | internal/policyir/export.go:343-352 | every condition built from a text is valid, stands at its place, and reads the permission scope as its place inside or outside an iterate must |
| PolicyConditions.SameOutside | internal/policyir/parse.go:639-662 | a text means the same inside an iterate as outside but for the reading of the permission scope, and is refused in both or in neither |
| PolicyTrees.Checker.CheckOperand | internal/policyir/tree.go:492-502 | an operand passes exactly when a pass value is bound and no permission scope is read inside an iterate |
| PolicyTrees.Checker.CheckCondition | internal/policyir/tree.go:478-505 | a condition passes exactly when it is valid, at its place, and every operand is in scope |
| PolicyTrees.Checker.CheckPolicy | internal/policyir/tree.go:449-476 | a policy passes exactly when its algorithm, its effects, and all its conditions do |
| PolicyTrees.Checker.CheckSet | internal/policyir/tree.go:412-447 | a set passes exactly when it is well scoped and its variables are new, and whatever the verdict the variables bound around it are bound again |
| PolicyTrees.Checker.CheckSets | internal/policyir/tree.go:400-410 | as for one set, over a list, with the variables of each seen by those after it |
| PolicyTrees.Checker.CheckTree | internal/policyir/tree.go:338-398 | the stateful walk accepts exactly the trees that are well scoped and whose iterate variables are all different |
| PolicyBuilders.SetBuilder.Policy | internal/policyir/export.go:472-496 | a policy is built with its rules in order, or refused for an unknown algorithm or effect |
| PolicyBuilders.SetBuilder.Set | internal/policyir/export.go:395-439 | a set is built with a shared count of iterates, and a set that always fails is left without children |
| PolicyBuilders.SetBuilder.Tenant | internal/policyir/export.go:159-185 | the sets of a tenant are built with one count, isolated sets as bare targets |
| PolicyBuilderProperties.SetPasses | internal/policyir/export.go:393-439 | every built set is well scoped, and its iterate variables are numbered in the order of the tree |
| PolicyBuilderProperties.TenantAdmitted | internal/policyir/tree.go:283-308 | the checker admits the tree of every tenant whose sets can be read |
| PolicyBuilderProperties.TenantBuilds | internal/policyir/export.go:354-359 | a tenant's sets are built exactly when every algorithm and effect outside isolated and always failing sets is known |
| PolicyBuilderProperties.SetKept | internal/policyir/export.go:395-496 | a built set holds every node of the export down to the sets that always fail, in order and at its depth, with the conditions of its texts |
| JsonTexts.StringEnd | internal/policyir/export.go:988-999 | the scan of a string stops just past the quote that closes it |
| JsonTexts.ContainerEnds | internal/policyir/export.go:969-986 | for every text that parses as JSON, each opening bracket outside strings is mapped to just past its match, nothing else is mapped, and the stack is never popped when empty |
| JsonFilters.ExactFilter.SkipSpace | internal/policyir/export.go:1001-1008 | the scan stops at the first character that is not whitespace |
| JsonFilters.ExactFilter.ValueEnd | internal/policyir/export.go:924-937 | steps over exactly one value, a container without reading it |
| JsonFilters.ExactFilter.Next | internal/policyir/export.go:902-910 | from a value to the next item of its container, or to the closing bracket |
| JsonFilters.LastMemberIsLast | internal/policyir/export.go:853-873 | the member kept for a field has its key, and no member after it has |
| JsonFilters.ExactFilter.LastOffsets | internal/policyir/export.go:857-873 | one pass over the members finds the offset of the last value of every field |
| JsonFilters.ExactFilter.Object | internal/policyir/export.go:853-887 | the fields are written in their order, each with the last member of its key, and no other member |
| JsonFilters.ExactFilter.Array | internal/policyir/export.go:890-900 | every element is written, filtered, in order |
| JsonFilters.ExactFilter.Value | internal/policyir/export.go:836-851 | what is written at an offset is what the type keeps of the value parsed there |
| JsonFilters.Filter | internal/policyir/export.go:757-766 | for every JSON text the filter writes exactly what the type keeps of it |
| TokenKeys.AllowsWhatFits | internal/token/keys/keys.go:120-133 | a usable key allows exactly the accepted algorithms of its type and curve, and only its own when it declares one |
| TokenKeys.FirstsAreDistinct | internal/token/keys/fetch.go:216-221 | of the keys of a list each kid keeps one, the provider's own, and no kid is lost |
| TokenKeys.ParseJWKS | internal/token/keys/fetch.go:222-266 | fails exactly when one kid names two different keys, reports no usable key exactly when all are skipped, and otherwise keeps the first key of each kid |
| TokenKeys.IndexIsUnion | internal/token/keys/keys.go:237-251 | where no two keys share a kid the index holds each of them and nothing else |
| TokenKeys.NewSnapshot | internal/token/keys/keys.go:237-251 | indexes the keys of all providers, or fails exactly when a kid appears twice |
| KeySets.KeySet.Lookup | internal/token/keys/keys.go:253-257 | finds a kid exactly when some provider lists it, and then that provider's key |
| KeySets.RefreshPerProvider | internal/token/keys/keys.go:259-303 | a reload replaces nothing when two providers' new lists share a kid; otherwise each provider has its fetched keys, its old ones after a failure, or none without a usable key |
| KeySets.KeySet.Refresh | internal/token/keys/keys.go:265-303 | publishes the reloaded snapshot, reports a shared kid exactly when there is one, and names exactly the providers whose fetch failed |
| KeySets.Load | internal/token/keys/keys.go:162-205 | succeeds exactly with distinct providers that all bring keys and share no kid, and publishes those keys |
| KeySets.SnapshotIsUnion | internal/token/keys/keys.go:155-160 | a published index is the disjoint union of the providers' key lists |
| KeySets.RunKeepsUnion | internal/token/keys/keys.go:144-160 | after every run of reloads with any outcomes the index is that disjoint union |
| TokenVerifiers.TimesPassIff | internal/token/verify/claims.go:33-65 | the times pass exactly when exp is given and ahead, nbf is behind if given, and iat is given and behind, each by the leeway, and every one given is a number in range |
| TokenVerifiers.TimesStay | internal/token/verify/claims.go:33-65 | a token whose times passed once passes with the same expiry until it expires, and is then refused as expired |
| TokenVerifiers.CheckAudience | internal/token/verify/claims.go:86-122 | refused with the code of the fault, and passed exactly when the provider lists no audience, allows a missing one, or is named |
| TokenVerifiers.Cache.Get | internal/token/verify/cache.go:38-50 | returns the token kept until it expires, and an expired one leaves |
| TokenVerifiers.Cache.Put | internal/token/verify/cache.go:52-55 | keeps the token, never holds more than its size, and changes no other token it still holds |
| TokenVerifiers.Verifier.Cached | internal/token/verify/verify.go:320-334 | answers exactly when an unexpired token is kept and its kid still names its key |
| TokenVerifiers.Verifier.VerifyNow | internal/token/verify/verify.go:273-318 | the checks run in their order and the first fault is returned; an accepted token is kept |
| TokenVerifiers.Verifier.Verify | internal/token/verify/verify.go:255-271 | a request is answered from the cache or by verification, and then admitted or not |
| TokenCacheProperties.CacheIsInvisible | internal/token/verify/verify.go:243-271 | over every run of requests, reloads, evictions, and a clock that does not run backwards, each answer is the one a verifier without a cache gives, with the same token |
| TokenCacheProperties.AcceptedKeyIsPublished | internal/token/verify/verify.go:320-334 | an accepted token is the one asked for, has not expired, and its kid names its key at that moment |
| TokenCacheProperties.StepKeepsValid | internal/token/verify/cache.go:24-30 | every step keeps that each cached token passed earlier, with a key published by then |
| TokenServices.RoundIsNew | internal/token/keys/fetch.go:216-266 | key lists whose entries are parsed into keys of new identity bring keys of new identity, no two of one parse |
| TokenServices.ReloadIsPublishable | internal/token/keys/keys.go:259-303 | whatever the fetches bring, the keys a reload publishes keep each parse with one key record, a failed provider's among them |
| TokenServices.ActionIsStep | internal/token/keys/keys.go:259-303 | every request, reload, tick, and eviction of the verifier with its key set is a step of the verifier alone, and keeps the published keys in order |
| TokenServices.ServiceAnswersPlainly | internal/token/verify/verify.go:243-271 | over every run from the first load on, with any outcomes of the fetches and reloads that fall into requests, each answer is the one a verifier without a cache gives for the keys the key set holds |
| Targets.Scanner.Word | internal/acconfig/convert.go:355-372 | takes a word in any case when a delimiter or the end follows it |
| Targets.Scanner.Literal | internal/acconfig/convert.go:383-401 | takes a quoted literal up to the first closing quote, unless it is blank |
| Targets.ParseOperands | internal/acconfig/convert.go:310-322 | reads the operands of a clause, each role once |
| Targets.ParseRoles | internal/acconfig/convert.go:274-331 | reads the roles of a whole expression of clauses, or refuses it |
| TargetProperties.ComparisonRoundTrip | internal/acconfig/convert.go:30-40 | a printed comparison matches the target pattern exactly when its value is not empty and has no quote, and gives the value back |
| TargetProperties.ResourceTypeRoundTrip | components/authz-policy-admin/convert.go:285-291 | ALL and * are read as any, every other resource type as itself, and an empty or quoted one not at all |
| TargetProperties.OperationRoundTrip | components/authz-policy-admin/convert.go:293-299 | the same for operations |
| TargetProperties.KeyRoundTrip | components/authz-policy-admin/convert.go:301-326 | for every key: an empty one is read as any role; one without quotes as its parts, each once, or not at all when one is blank; and no role read from any key holds a quote |
| TargetProperties.PartsOfKey | components/authz-policy-admin/convert.go:328-337 | roles without quotes or commas are the parts of their key, in ascending order |
| TargetProperties.ClausesHaveNoQuote | internal/acconfig/convert.go:274-331 | no role read from any expression holds a quote |
| V3Conversions.GroupItems | components/authz-policy-admin/convert.go:174-193 | the policies are grouped by component and resource type in the order these first appear, and by roles within |
| V3Conversions.ToV3Sets | components/authz-policy-admin/convert.go:156-251 | one set for each component and resource type, in it one policy for each role list in ascending order, in that one rule for each simplified policy in list order |
| V3Conversions.ConvertPolicySet | internal/acconfig/convert.go:116-191 | converts the rules of a set in order, and counts every rule reached as converted, skipped, or denying |
| V3Conversions.ConvertPolicySets | internal/acconfig/convert.go:103-114 | converts the simplified sets in order, and the counts balance over the whole response |
| V3RoundTrips.GroupsAreInvisible | components/authz-policy-admin/convert.go:156-251 | for every list, converting to sets and back gives for each policy what it would give alone, order aside |
| V3RoundTrips.ComesBackAs | internal/acconfig/convert.go:116-272 | every policy becomes none where its resource type or operation cannot be named or its roles cannot be read, and otherwise itself with the roles read, ALL for every spelling of it, and no blank text |
| V3RoundTrips.ComesBackIff | internal/acconfig/convert.go:236-331 | every policy comes back with exactly the roles it was given if and only if no role is blank or holds a quote or a comma and its resource type and operation can be named; it is then its canonical form |
| V3RoundTrips.EmptyRoleIsLost | components/authz-policy-admin/convert.go:312-315 | a single empty role comes back as no role at all |
| V3RoundTrips.CommaRoleIsSplit | components/authz-policy-admin/convert.go:312-326 | one role of two names with a comma between comes back as the two names |
| V3RoundTrips.QuoteRoleIsSplit | components/authz-policy-admin/convert.go:312-326 | one role that closes its quotes and opens another clause comes back as the two names in it |
| V3RoundTrips.SameRoles | components/authz-policy-admin/convert.go:328-337 | the canonical form of a policy names exactly the roles of the policy |
| V3RoundTrips.RoundTrip | internal/acconfig/convert.go:77-91 | of a list of convertible policies none is lost, and each comes back as its canonical form, in some order |
| Normalizations.NormalizeRoles | internal/simplifiedpolicies/normalize.go:173-193 | the roles normalized, blank ones dropped, sorted and each once |
| Normalizations.MergeSorted | internal/simplifiedpolicies/normalize.go:195-219 | the sorted union of two role lists, whatever order the set is read in |
| Normalizations.Normalizer.MergeOLS | internal/simplifiedpolicies/normalize.go:195-219 | the roles of one operation become the sorted union, and no other entry changes |
| Normalizations.Normalizer.AppendRLS | internal/simplifiedpolicies/normalize.go:221-226 | the list of the resource type, operation, and role gets the rule last, every other list is as it was, and no empty map or list appears |
| Normalizations.Normalizer.MergeGlobal | internal/simplifiedpolicies/normalize.go:127-139 | after it the role may use everything, an operation, or a resource type exactly when it could before or the wildcard says so; the role has an entry, and no other role's access changes |
| PolicyNormalizations.Placement.Place | internal/simplifiedpolicies/normalize.go:74-102 | each policy is placed among the wildcards or among the plain ones, never both, and the maps stay those defined by filtering |
| PolicyNormalizations.NormalizePolicies | internal/simplifiedpolicies/normalize.go:49-125 | refused exactly when one policy is; otherwise roles are the sorted unions, rules the filtered list in order, and access what the wildcards open |
| PolicyNormalizations.AccessIs | internal/simplifiedpolicies/normalize.go:127-139 | a role has access to everything, to an operation, or to a resource type exactly when one of its wildcard policies says so |
| PolicyNormalizations.ScanAst | internal/simplifiedpolicies/normalize.go:509-530 | the attributes a condition reads at any depth are added, the empty one left out |
| PolicyNormalizations.CollectRefs | internal/simplifiedpolicies/normalize.go:454-481 | the attributes some rule of the operation reads, sorted and each once |
| PolicyNormalizations.BuildRefIndex | internal/simplifiedpolicies/normalize.go:428-452 | an operation is listed exactly when its rules read an attribute, with all it reads |
| Activations.AliasIndex | internal/pips/activation.go:67-76 | a text is in the index exactly when a point has it as alias or short name, and is mapped to such a point |
| Activations.AliasIndexUnique | internal/pips/activation.go:67-76 | where no text stands for two points the index does not depend on the order they are read in |
| Activations.NoEmptyAlias | internal/pips/activation.go:67-76 | the empty text stands for no point exactly when no alias and no short name is empty |
| Activations.CollectPIPs | internal/pips/activation.go:130-167 | the points some rule of the operation refers to by alias or short name, each once |
| Activations.BuildIndex | internal/pips/activation.go:102-128 | an operation is listed exactly when it activates a point, with all it activates |
| Activations.ActivatedAreIndexed | internal/pips/activation.go:130-205 | the points activated for an operation are the image, under the aliases, of the attributes the other index lists for it |
| Activations.EmptyAliasDiffers | internal/pips/activation.go:169-192 | with an empty alias or short name the two indexes differ on some rules |

## Left out

- Integer widths: offsets, counts, weights, and times are unbounded; texts of 2^62 characters and clocks past the range of 64 bits are not modelled.
- Bytes: texts are sequences of Unicode characters, so invalid UTF-8, unpaired surrogates, and word matching that cuts a character in two are not modelled.
- CharClasses.CharClass: characters are code points, so a hexadecimal escape of a surrogate is refused.
- Path and filter compilation, and every part of the regular-expression translation but bracket classes, including the letters it folds outside a class.
- Floating point: min, max, sum, and average of a path function, and the text of a double, are parameters.
- JsonPaths.Select: the steps themselves are fixed by the budget-free evaluation, and agreement with the Jayway library is not stated.
- LegacyRecordProperties.RecordIsSmall: counts the texts of a record, and not the coefficient of its exact number.
- The spacing rules of the condition parser, its literals, and its operators: a text is split by a parameter, and what is proved concerns the scope of its tokens and its validity.
- Labels of a policy tree.
- PolicyTrees.Checker.CheckPolicy: the predicates of a rule are not modelled, so neither are their checks.
- PolicyTrees.Checker.CheckTree: information points and predicates are not modelled, so neither are their checks.
- PolicyBuilders.SetBuilder.Policy: the predicates of a rule are not built.
- PolicyBuilders.SetBuilder.Tenant: takes the sets already told from simplified groups; how these are recognized is not modelled.
- JsonFilters.ExactFilter.Object: the paths of dropped keys are not reported; the compaction of a kept value is a function of the text between its ends.
- JsonFilters.Filter: the target types are given as shapes, and the decoding of the filtered text is not modelled.
- Signatures, SHA-256, base64, and the JSON of headers and payloads, which are parameters; two texts of one digest are excluded.
- TokenVerifiers.Cache.Put: the order of recent use is not modelled; any token may be dropped to make room, and any at any time.
- TokenKeys.ParseJWKS: takes the entries already parsed, each skipped or with its thumbprint; the floors on RSA keys are not modelled.
- Retries, timers, and requests of the key fetcher: a fetch brings keys, no usable key, or a failure.
- V3Conversions.ToV3Sets: identifiers and names of sets, policies, and rules are left out, and roles and conditions are texts.
- Targets.ParseRoles: case folding compares one character with one character.
- PolicyNormalizations.NormalizePolicies: the placeholders of a predicate are a parameter, and the copies of a rule made through JSON are the rule.
- HTTP servers, pulling, configuration, the policy engine, and error texts.
