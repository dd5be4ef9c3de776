# Layered property resolution (Spring `core.env`)

This project models how Spring's environment abstraction looks up properties.

A **PropertySources** container holds named property sources in precedence order, index 0 first. Each source reads through to a caller-owned backing map. The container supports `addFirst`, `addLast`, `replace` by name and `size`.

A **PropertySourcesPropertyResolver** answers queries over that container:
- `containsProperty`, `getProperty`, and typed and required variants of `getProperty`;
- `asProperties`, which flattens all sources into one table;
- `${name}` placeholder substitution in a lenient mode and a required mode.

The behaviour is the one fixed by the resolver's test suite, `org.springframework.core/src/test/java/org/springframework/core/env/PropertyResolverTests.java`. The implementation classes are not part of this model.

Layout:
- `PropertyLookup.dfy` — the pure search.
  - A snapshot of the sources is a sequence of layers, each a map from key to optional value (`None` is an explicit null).
  - `Lookup` returns the first non-null value in precedence order.
  - `Flatten` is the merge in precedence order behind `asProperties`.
- `Conversion.dfy` — typed retrieval over a closed set of target types:
  - the string itself;
  - a string array, split on commas;
  - any other type, which has no conversion and fails.
- `Placeholders.dfy` — placeholder scanning and substitution.
  - `Parse` cuts text into literal runs and `${name}` placeholders.
  - `Render` writes the segments back out.
  - `Expand` substitutes values in the chosen mode.
- `Errors.dfy` — the failures: a missing required key, a failed conversion, an unresolvable placeholder, a duplicate source name and an unknown source name. It also gives the placeholder failure's message text.
- `Env.dfy` — the mutable side.
  - `PropertyMap` is a backing map that callers keep writing to.
  - `PropertySources` is a class over a sequence of sources that its methods update in place.
  - `PropertySourcesPropertyResolver` holds the container and searches it with loops on every query; nothing is cached.
  - Every query's postcondition is stated against `Lookup` or `Flatten` applied to the live contents of the backing maps (`Layers()`).
- `PlaceholderExamples.dfy` and `Scenarios.dfy` — each test case replayed against the model. Each scenario method performs the test's updates and queries in order; its postcondition is what the test asserts.

Modelling choices:
- The sources in a container have unique names. Adding a source under a name that is already present is refused with `DuplicateSourceName`, and nothing changes. Replacing a name that is not present is refused with `UnknownSourceName`, and so is a replacement whose name another source already has. The test suite does not exercise these paths, so they are a modelling choice: the model keeps names unique by refusing, where the container itself might behave otherwise (see Left out).
- The test at lines 132-148 has a comment saying `system` takes precedence after the replacement. The assertion beside it expects the replacement's value, because the replacement takes the replaced source's first position. The model follows the assertion (`ReplaceKeepsPosition`, `ReplacePropertySourceScenario`).
- `containsProperty` is true only when some source maps the key to a non-null value, matching `getProperty`.
- `asProperties` leaves out a key whose every value is null.
- `getProperty(key, type)` with an absent key answers "absent" for every target type, including one without a conversion. Only a present value is converted.

## Model

| member | source | states |
|---|---|---|
| PropertyLookup.Lookup | org.springframework.core/src/test/java/org/springframework/core/env/PropertyResolverTests.java:56-72 | the value of the first source, in precedence order, that maps the key to a non-null value; what this means is stated by LookupAbsent and LookupFirstMatch |
| PropertyLookup.LookupAbsent | org.springframework.core/src/test/java/org/springframework/core/env/PropertyResolverTests.java:49-60 | a lookup is absent exactly when no source maps the key to a non-null value |
| PropertyLookup.LookupFirstMatch | org.springframework.core/src/test/java/org/springframework/core/env/PropertyResolverTests.java:63-72 | a lookup yields v exactly when some source maps the key to v and no higher-precedence source maps it to a non-null value |
| PropertyLookup.LookupConcat | org.springframework.core/src/test/java/org/springframework/core/env/PropertyResolverTests.java:63-72 | searching front sources then back sources: the front's answer if it has one, otherwise the back's |
| PropertyLookup.AddFirstShadows | org.springframework.core/src/test/java/org/springframework/core/env/PropertyResolverTests.java:66-71 | a source put first that defines the key decides the lookup; one that does not leaves it unchanged |
| PropertyLookup.AddLastIsLowestPrecedence | org.springframework.core/src/test/java/org/springframework/core/env/PropertyResolverTests.java:135-139 | a source put last changes a lookup only for a key no earlier source defines |
| PropertyLookup.ReplaceKeepsPosition | org.springframework.core/src/test/java/org/springframework/core/env/PropertyResolverTests.java:142-145 | swapping a source in place is the same as searching the sources before it, then the replacement, then the ones after it |
| PropertyLookup.ExplicitNullIsAbsent | org.springframework.core/src/test/java/org/springframework/core/env/PropertyResolverTests.java:75-81 | a key stored with an explicit null resolves exactly as if the key were missing from that source |
| PropertyLookup.LookupAfterPut | org.springframework.core/src/test/java/org/springframework/core/env/PropertyResolverTests.java:105-129 | after a backing map stores a non-null value for a key that no higher-precedence source defines, that key resolves to the new value, and every other key resolves as before |
| PropertyLookup.Flatten | org.springframework.core/src/test/java/org/springframework/core/env/PropertyResolverTests.java:177-192 | all sources merged into one table, a higher-precedence source overwriting a lower one; what this means is stated by FlattenAgreesWithLookup and FlattenKeysAreUnion |
| PropertyLookup.FlattenAgreesWithLookup | org.springframework.core/src/test/java/org/springframework/core/env/PropertyResolverTests.java:186-190 | a key is in the flattened table exactly when a lookup finds it, and it carries the value that lookup returns |
| PropertyLookup.FlattenKeysAreUnion | org.springframework.core/src/test/java/org/springframework/core/env/PropertyResolverTests.java:186-191 | a key is in the flattened table exactly when some source maps it to a non-null value |
| Conversion.Split | org.springframework.core/src/test/java/org/springframework/core/env/PropertyResolverTests.java:84-87 | splitting on commas gives at least one item, and no item contains a comma |
| Conversion.Join | org.springframework.core/src/test/java/org/springframework/core/env/PropertyResolverTests.java:84-87 | items joined with commas; JoinSplit and SplitJoin state that it inverts Split |
| Conversion.JoinSplit | org.springframework.core/src/test/java/org/springframework/core/env/PropertyResolverTests.java:84-87 | joining the split items with commas gives back the original value |
| Conversion.SplitJoin | org.springframework.core/src/test/java/org/springframework/core/env/PropertyResolverTests.java:84-87 | splitting comma-free items joined by commas gives back the items |
| Conversion.Convert | org.springframework.core/src/test/java/org/springframework/core/env/PropertyResolverTests.java:84-102 | converting to a string keeps the value; converting to a string array gives comma-free items that join back to the value; any other type fails, naming the value and the type |
| Conversion.ArrayConversionIsUnique | org.springframework.core/src/test/java/org/springframework/core/env/PropertyResolverTests.java:84-87 | the array conversion is the only list of comma-free items that joins back to the value |
| Conversion.TwoItemConversion | org.springframework.core/src/test/java/org/springframework/core/env/PropertyResolverTests.java:84-87 | a value of two comma-free items around one comma converts to exactly those two items |
| Errors.PlaceholderMessage | org.springframework.core/src/test/java/org/springframework/core/env/PropertyResolverTests.java:208 | the failure message holds the placeholder name between its fixed prefix and suffix |
| Errors.PlaceholderMessageIdentifiesName | org.springframework.core/src/test/java/org/springframework/core/env/PropertyResolverTests.java:208 | different placeholder names give different messages |
| Errors.UnresolvableMessage | org.springframework.core/src/test/java/org/springframework/core/env/PropertyResolverTests.java:208 | the message for the placeholder unresolvable is exactly "Could not resolve placeholder 'unresolvable'" |
| Placeholders.FindPrefix | org.springframework.core/src/test/java/org/springframework/core/env/PropertyResolverTests.java:195-199 | the scan finds the first position at or after the start where `${` opens, or reports that none exists |
| Placeholders.FindSuffix | org.springframework.core/src/test/java/org/springframework/core/env/PropertyResolverTests.java:195-199 | the scan finds the first `}` at or after the start, or reports that none exists |
| Placeholders.Parse | org.springframework.core/src/test/java/org/springframework/core/env/PropertyResolverTests.java:195-199 | text cut into literal runs and `${name}` placeholders; RenderParse and ParseRender state that it inverts Render |
| Placeholders.Render | org.springframework.core/src/test/java/org/springframework/core/env/PropertyResolverTests.java:195-199 | segments written back out as text; RenderParse and ParseRender state that it inverts Parse |
| Placeholders.ParseLiteral | org.springframework.core/src/test/java/org/springframework/core/env/PropertyResolverTests.java:195-199 | text without `${` scans as a single literal run, or as nothing when empty |
| Placeholders.OpensAfterLiteral | org.springframework.core/src/test/java/org/springframework/core/env/PropertyResolverTests.java:195-199 | after a literal without `${`, the first placeholder opens right behind the literal |
| Placeholders.ClosesAfterName | org.springframework.core/src/test/java/org/springframework/core/env/PropertyResolverTests.java:195-199 | a placeholder name without `}` ends at the `}` written after it |
| Placeholders.ParsePlaceholderStep | org.springframework.core/src/test/java/org/springframework/core/env/PropertyResolverTests.java:195-199 | a literal without `${` (possibly empty), then `${name}` with no `}` in the name, then any text, scans into that literal, that placeholder and the scan of the rest |
| Placeholders.ParseRender | org.springframework.core/src/test/java/org/springframework/core/env/PropertyResolverTests.java:195-199 | scanning finds exactly the placeholders that were written: well-formed segments (non-empty literals without `${`, never two literals in a row, names without `}`) written out scan back to themselves |
| Placeholders.RenderParse | org.springframework.core/src/test/java/org/springframework/core/env/PropertyResolverTests.java:195-199 | scanning loses nothing: writing the parsed segments back out gives the original text |
| Placeholders.ExpandSegment | org.springframework.core/src/test/java/org/springframework/core/env/PropertyResolverTests.java:195-210 | a segment fails exactly when it is a placeholder without a value in required mode, and the failure names that placeholder; otherwise a literal gives its text, a placeholder with a value gives the value, and one without gives itself as written |
| Placeholders.Expand | org.springframework.core/src/test/java/org/springframework/core/env/PropertyResolverTests.java:195-199 | lenient substitution never fails |
| Placeholders.RequiredSucceedsIffAllResolvable | org.springframework.core/src/test/java/org/springframework/core/env/PropertyResolverTests.java:202-210 | required substitution succeeds exactly when every placeholder has a value, and then agrees with lenient substitution |
| Placeholders.RequiredFailureNamesFirstUnresolvable | org.springframework.core/src/test/java/org/springframework/core/env/PropertyResolverTests.java:202-210 | a failed required substitution names a placeholder that has no value, and every placeholder before it has one |
| Placeholders.LenientFillsResolvable | org.springframework.core/src/test/java/org/springframework/core/env/PropertyResolverTests.java:195-199 | lenient substitution, for any segments and any sources, replaces each placeholder that has a value by that value and writes every other segment, an unresolvable placeholder included, as it was written |
| Placeholders.ExpandLead | org.springframework.core/src/test/java/org/springframework/core/env/PropertyResolverTests.java:195-210 | a leading literal run is kept in front of whatever the segments after it expand to, and the first failure after it is the result |
| Placeholders.ResolveStep | org.springframework.core/src/test/java/org/springframework/core/env/PropertyResolverTests.java:195-199 | resolvePlaceholders on a literal without `${`, a placeholder and the rest: the literal, then the value or, without one, the placeholder as written, then the rest resolved the same way |
| Placeholders.ResolveRequiredStep | org.springframework.core/src/test/java/org/springframework/core/env/PropertyResolverTests.java:202-210 | resolveRequiredPlaceholders on a literal without `${`, a placeholder and the rest: a failure naming the placeholder when it has no value; otherwise the literal, the value and the rest resolved, or the rest's failure |
| Placeholders.ResolvePlaceholders | org.springframework.core/src/test/java/org/springframework/core/env/PropertyResolverTests.java:195-199 | lenient substitution on text: each resolvable placeholder becomes its value, everything else stays as written |
| Placeholders.ResolveRequiredPlaceholders | org.springframework.core/src/test/java/org/springframework/core/env/PropertyResolverTests.java:202-210 | required substitution on text succeeds exactly when every placeholder resolves, and then gives the text with each placeholder replaced by its value |
| Placeholders.LenientKeepsUnresolvable | org.springframework.core/src/test/java/org/springframework/core/env/PropertyResolverTests.java:195-199 | lenient substitution writes placeholders without a value back as they were written |
| Placeholders.RequiredPlaceholdersAgreeWithLenient | org.springframework.core/src/test/java/org/springframework/core/env/PropertyResolverTests.java:195-210 | resolveRequiredPlaceholders on text succeeds exactly when all its placeholders resolve, and then equals resolvePlaceholders; otherwise it names the first unresolvable placeholder |
| Placeholders.UnresolvableTextIsUnchanged | org.springframework.core/src/test/java/org/springframework/core/env/PropertyResolverTests.java:195-199 | text none of whose placeholders resolves comes back from resolvePlaceholders unchanged |
| Placeholders.PlainTextIsUnchanged | org.springframework.core/src/test/java/org/springframework/core/env/PropertyResolverTests.java:195-210 | text without `${` comes back unchanged from both modes |
| PlaceholderExamples.ParsePlain | org.springframework.core/src/test/java/org/springframework/core/env/PropertyResolverTests.java:195-199 | non-empty text without `$` scans into one literal run |
| PlaceholderExamples.ParseOne | org.springframework.core/src/test/java/org/springframework/core/env/PropertyResolverTests.java:195-199 | a non-empty literal without `$`, then `${name}` with no `}` in the name, scans into that literal and that placeholder, followed by the scan of the rest |
| PlaceholderExamples.ParseTwoPlaceholders | org.springframework.core/src/test/java/org/springframework/core/env/PropertyResolverTests.java:195-199 | literal, placeholder, literal, placeholder, literal (literals without `$`, names without `}`) scans back into exactly those five segments |
| PlaceholderExamples.ParseExample | org.springframework.core/src/test/java/org/springframework/core/env/PropertyResolverTests.java:197 | "pre-${foo}-${unresolvable}-post" scans into literal, placeholder foo, literal, placeholder unresolvable, literal |
| PlaceholderExamples.ExpandResolvedThenUnresolved | org.springframework.core/src/test/java/org/springframework/core/env/PropertyResolverTests.java:195-210 | with one resolvable and one unresolvable placeholder, lenient mode substitutes the first and keeps the second as written, and required mode fails naming the second |
| PlaceholderExamples.PlaceholderExample | org.springframework.core/src/test/java/org/springframework/core/env/PropertyResolverTests.java:195-210 | with foo=bar the example text becomes "pre-bar-${unresolvable}-post" in lenient mode and fails naming "unresolvable" in required mode |
| Env.PropertyMap.constructor | org.springframework.core/src/test/java/org/springframework/core/env/PropertyResolverTests.java:110 | a new backing map is empty |
| Env.PropertyMap.Put | org.springframework.core/src/test/java/org/springframework/core/env/PropertyResolverTests.java:51 | storing a value replaces that key's value and changes no other key |
| Env.NamesOf | org.springframework.core/src/test/java/org/springframework/core/env/PropertyResolverTests.java:142 | the names of the sources, position by position |
| Env.Snapshot | org.springframework.core/src/test/java/org/springframework/core/env/PropertyResolverTests.java:105-118 | a query sees each backing map's current contents, in precedence order |
| Env.PropertySources.constructor | org.springframework.core/src/test/java/org/springframework/core/env/PropertyResolverTests.java:42 | a new container is empty |
| Env.PropertySources.IndexOf | org.springframework.core/src/test/java/org/springframework/core/env/PropertyResolverTests.java:142 | the position of the source with the given name, or none exactly when no source has that name |
| Env.PropertySources.AddFirst | org.springframework.core/src/test/java/org/springframework/core/env/PropertyResolverTests.java:63-72 | a source with a new name goes in front of all others; a name already present is refused and nothing changes; names stay unique |
| Env.PropertySources.AddLast | org.springframework.core/src/test/java/org/springframework/core/env/PropertyResolverTests.java:132-139 | a source with a new name goes behind all others; a name already present is refused and nothing changes; names stay unique |
| Env.PropertySources.Replace | org.springframework.core/src/test/java/org/springframework/core/env/PropertyResolverTests.java:141-147 | the replacement takes the named source's position and the size stays the same; an unknown name or a name clash is refused and nothing changes |
| Env.PropertySources.Size | org.springframework.core/src/test/java/org/springframework/core/env/PropertyResolverTests.java:147 | the number of sources in the container |
| Env.PropertySourcesPropertyResolver.constructor | org.springframework.core/src/test/java/org/springframework/core/env/PropertyResolverTests.java:43 | the resolver searches the container it was given |
| Env.PropertySourcesPropertyResolver.ContainsProperty | org.springframework.core/src/test/java/org/springframework/core/env/PropertyResolverTests.java:49-53 | true exactly when some source maps the key to a non-null value now |
| Env.PropertySourcesPropertyResolver.GetProperty | org.springframework.core/src/test/java/org/springframework/core/env/PropertyResolverTests.java:56-60 | the first non-null value in precedence order, read from the backing maps as they are now |
| Env.PropertySourcesPropertyResolver.GetPropertyAs | org.springframework.core/src/test/java/org/springframework/core/env/PropertyResolverTests.java:84-102 | an absent key stays absent; a present value converts, or fails exactly when the target type has no conversion |
| Env.PropertySourcesPropertyResolver.GetRequiredProperty | org.springframework.core/src/test/java/org/springframework/core/env/PropertyResolverTests.java:151-161 | the value when the key resolves; otherwise a failure naming the key |
| Env.PropertySourcesPropertyResolver.GetRequiredPropertyAs | org.springframework.core/src/test/java/org/springframework/core/env/PropertyResolverTests.java:164-174 | a failure naming the key when it is absent; otherwise the conversion of its value |
| Env.PropertySourcesPropertyResolver.AsProperties | org.springframework.core/src/test/java/org/springframework/core/env/PropertyResolverTests.java:177-192 | the merged table: its keys are those some source defines, and each carries the highest-precedence value |
| Env.PropertySourcesPropertyResolver.ResolvePlaceholders | org.springframework.core/src/test/java/org/springframework/core/env/PropertyResolverTests.java:195-199 | lenient placeholder substitution over the current contents of the sources: each placeholder with a value becomes that value and every other segment is written as it was; text none of whose placeholders resolves comes back unchanged |
| Env.PropertySourcesPropertyResolver.ResolveRequiredPlaceholders | org.springframework.core/src/test/java/org/springframework/core/env/PropertyResolverTests.java:202-210 | succeeds exactly when every placeholder resolves now, and then equals the lenient result; otherwise fails naming the first placeholder without a value |
| Scenarios.SetUp | org.springframework.core/src/test/java/org/springframework/core/env/PropertyResolverTests.java:41-46 | a fresh container whose only source is the empty testProperties map |
| Scenarios.ContainsPropertyScenario | org.springframework.core/src/test/java/org/springframework/core/env/PropertyResolverTests.java:49-53 | containsProperty("foo") is false, then true once foo is stored |
| Scenarios.GetPropertyScenario | org.springframework.core/src/test/java/org/springframework/core/env/PropertyResolverTests.java:56-60 | getProperty("foo") is absent, then "bar" once foo is stored |
| Scenarios.SearchOrderScenario | org.springframework.core/src/test/java/org/springframework/core/env/PropertyResolverTests.java:63-72 | after each addFirst, the newest source's pName wins: ps1Value, ps2Value, ps3Value |
| Scenarios.ExplicitNullScenario | org.springframework.core/src/test/java/org/springframework/core/env/PropertyResolverTests.java:75-81 | foo stored as null resolves as absent |
| Scenarios.StringArrayConversionScenario | org.springframework.core/src/test/java/org/springframework/core/env/PropertyResolverTests.java:84-87 | "bar,baz" read as a string array is ["bar","baz"] |
| Scenarios.NonConvertibleScenario | org.springframework.core/src/test/java/org/springframework/core/env/PropertyResolverTests.java:90-102 | reading a present value as a type without a conversion fails |
| Scenarios.ReplaceExistingKeyScenario | org.springframework.core/src/test/java/org/springframework/core/env/PropertyResolverTests.java:104-118 | changing foo after the first read is seen by the second: "bar", then "biz" |
| Scenarios.AddNewKeyScenario | org.springframework.core/src/test/java/org/springframework/core/env/PropertyResolverTests.java:120-129 | adding foo after the first read is seen by the second: absent, then "42" |
| Scenarios.ReplacePropertySourceScenario | org.springframework.core/src/test/java/org/springframework/core/env/PropertyResolverTests.java:131-148 | localValue before the replacement, newValue after it, and size 2 |
| Scenarios.GetRequiredPropertyScenario | org.springframework.core/src/test/java/org/springframework/core/env/PropertyResolverTests.java:150-161 | "exists" gives "xyz"; "bogus" fails |
| Scenarios.GetRequiredPropertyAsScenario | org.springframework.core/src/test/java/org/springframework/core/env/PropertyResolverTests.java:163-174 | "exists" gives ["abc","123"]; "bogus" fails |
| Scenarios.FlattenThreeSources | org.springframework.core/src/test/java/org/springframework/core/env/PropertyResolverTests.java:182-191 | three sources sharing one key, each with a key of its own, flatten to four entries, with the first source's value for the shared key |
| Scenarios.AsPropertiesScenario | org.springframework.core/src/test/java/org/springframework/core/env/PropertyResolverTests.java:176-192 | no sources give an empty table; the three sources give exactly common=highCommon, highKey, midKey and lowKey, four entries |
| Scenarios.ResolvePlaceholdersScenario | org.springframework.core/src/test/java/org/springframework/core/env/PropertyResolverTests.java:194-210 | "pre-bar-${unresolvable}-post" in lenient mode; a required-mode failure whose message is "Could not resolve placeholder 'unresolvable'" |

## Left out

- The general type-conversion service is not part of this model. Only three target types are modelled: the string, the comma-split string array, and "any other type", which fails. The splitter neither trims whitespace nor drops empty items, and an empty value gives one empty item.
- Placeholder syntax is fixed to `${` and `}`.
  - A placeholder name runs to the first `}`, so nested placeholders are not recognised.
  - A resolved value is not scanned again for further placeholders.
  - An opening `${` with no closing `}` leaves the rest of the text literal.
  - Custom prefixes and suffixes are not modelled.
- `java.util.Properties` refuses null values, and this is not modelled: every backing map may hold an explicit null (`None`).
- The `MockPropertySource.withProperty` builder is not modelled. A source is just a name and a backing map; the scenarios fill the maps with `Put`.
- Exception types are not modelled. A failure is a value of `Errors.Error`, and only the unresolvable-placeholder message text is modelled.
- Concurrent access to the backing maps is not modelled. Every query is sequential and sees the maps' contents at that moment.
- Env.PropertySources.AddFirst, Env.PropertySources.AddLast, Env.PropertySources.Replace: the refusal of a duplicate or unknown name is a modelling choice that keeps names unique. The test suite does not exercise these paths, and the container's own behaviour there (for example, removing an existing source of the same name before adding) is not part of this model.
- `DefaultServletHandlerConfigurerTests.java` (servlet handler registration) is not part of this model.
