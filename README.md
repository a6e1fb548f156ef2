# assert-response, modelled in Dafny

assert-response is a TypeScript library of HTTP response assertions. `ok(condition, body?, init?)` returns when `condition` is falsy. When it is truthy, it throws a `Response` with status 200 and, by default, the body "OK". There is one such function for every status code of a table, plus a negated partner (`notOk`) and aliases (`successful` for `ok`).

The library is generated:

- `codes.ts` holds the table of codes with their names and negation names.
- `scripts/prebuild.ts` writes `src/main.ts` from the table, one block of declarations per entry.
- It also rewrites the region between two markers of `README.md` with one markdown table per century of codes.

This project models the three core files as datatypes, functions and lemmas:

- **`JsValue`** covers the JavaScript values an assertion sees. It defines truthiness (ToBoolean, section 7.1.2 of ECMA-262), `!`, `??` and object spread.
- **`ResponseAssertion`** covers `createResponseAssertionFunction` and `negate` (src/main.ts:15-28).
  - An assertion is a value: `Create(status, message)` or `Negate(f)`.
  - Calling one gives an `Outcome` (it returns, throws a response, or throws a TypeError) and the list of thunks it invoked.
  - `new Response` is reduced to the one rule of the Fetch Standard that an assertion can reach: a body that is not null or undefined, given with a null body status (101, 103, 204, 205, 304), is a TypeError.
- **`StatusTable`** covers the table of codes.ts as a constant sequence. It has the well-formedness predicate the generator relies on, proved for the table:
  - non-empty name lists;
  - pairwise distinct identifiers;
  - strictly ascending codes in 200..599;
  - the codes that must not carry a body occur in the table.
- **`IdentifierSlots`** proves that the table's 165 identifiers are pairwise distinct. A decision function over characters recovers each identifier's place.
- **`PlainIdentifiers`** proves that no identifier of the table holds a `$` or a `!`. This is what keeps the generated README region free of replacement patterns and of the end marker.
- **`StatusCodes`** gives the reason phrases of the table's codes (`STATUS_CODES` of `node:http`).
- **`Bindings`** covers the declarations src/main.ts consists of.
  - Each entry gives four kinds of declaration: canonical assertion, alias export line, canonical negation, negation alias line.
  - Loading the module is interpreting those declarations. Loading fails when a name is exported twice or a name is used before it is declared.
- **`Emit`** covers `jsDocComment` and the text of src/main.ts that the template writes.
- **`GeneratedModule`** covers what src/main.ts exports for this table, and the examples of src/main.test.ts.
- **`ReadmeGroups`** covers the README tables:
  - `Object.groupBy` by century;
  - the key order of `Object.entries` (section 10.1.11.1 of ECMA-262);
  - `printFunctions` and the rows of each table.
  - that the generated text is plain (no `$`, no `!`) when the identifiers are.
- **`ReadmeRewrite`** covers `String.prototype.replace` with the marker regular expression and a replacement string. Replacement strings are expanded by GetSubstitution (section 22.1.3.19.1 of ECMA-262, 2024 edition).
- **`Text`** holds decimal rendering of integers, `join`, and `indexOf`.

A body of `""` given to a no-body assertion (204, 205, 304) is modelled as a TypeError. An empty string is not null or undefined, and the Fetch Standard's constructor tests for exactly that. This follows the code of the platform rather than descriptions that call an empty body acceptable.

## Model

| member | source | states |
|---|---|---|
| JsValue.FalsyTypeIsExact | src/main.ts:7 | the `Falsy` type (false, 0, "", null, undefined) lists exactly the values that do not trigger an assertion |
| JsValue.Not | src/main.ts:27 | `!v` is a boolean of the opposite truthiness |
| ResponseAssertion.MergedInitWithoutFields | src/main.ts:20 | an absent or non-object init leaves the response init holding the bound status alone |
| ResponseAssertion.Base | src/main.ts:15-28 | a chain of negations rests on one `createResponseAssertionFunction` call |
| ResponseAssertion.CallReducesToBase | src/main.ts:15-28 | any assertion either returns without invoking a thunk, or acts as its base on a truthy condition; which one depends only on the condition's truthiness and the parity of negations |
| ResponseAssertion.OnlyTruthinessMatters | src/main.ts:17 | two conditions of the same truthiness give the same outcome and invocations |
| ResponseAssertion.FalsyReturns | src/main.ts:16-23 | a falsy condition returns normally and invokes neither the body thunk nor the init thunk |
| ResponseAssertion.TruthyThrows | src/main.ts:17-21 | a truthy condition (an empty array included) never returns; it throws a response with the bound status unless the init sets `status`, or a TypeError only for a null body status; the body thunk runs before the init thunk |
| ResponseAssertion.BodyResolution | src/main.ts:19 | a thunk body's result, else a literal body, is used as is; only a null or undefined body falls back to the bound message, so "" is kept |
| ResponseAssertion.InitPrecedence | src/main.ts:20 | the response init holds every resolved init field plus `status`; an init `status` overrides the bound code |
| ResponseAssertion.NegateFlips | src/main.ts:26-28 | `negate(f)` throws exactly when `f` does not, and then throws what `f` throws on a condition of the opposite truthiness |
| ResponseAssertion.DoubleNegation | src/main.ts:26-28 | negating twice behaves as the original assertion |
| ResponseAssertion.NullBodyStatusRule | src/main.test.ts:323-331 | a triggered no-body assertion without a body throws a response without a body; with a non-nullish body it fails with a TypeError |
| ResponseAssertion.OtherStatusKeepsBody | src/main.test.ts:333-336 | for any other status the given body and merged init reach the thrown response |
| StatusTable.AscendingFromAdjacent | codes.ts:3-253 | codes ascending between neighbours are strictly ascending overall and pairwise distinct |
| StatusTable.AscendingBetween | codes.ts:3-253 | in a table ascending between neighbours, an earlier entry has a smaller code |
| StatusTable.AdjacentAscendingAppend | codes.ts:3-253 | two ascending runs, the first ending below the second's start, form one ascending run |
| StatusTable.BlockAppend | codes.ts:3-253 | two well-formed blocks in code order join into a well-formed block |
| StatusTable.BlockFromEntries | codes.ts:3-253 | a block whose every entry has names, negations, a code in 200..599 and a code below its successor is well-formed |
| StatusTable.SuccessfulWellFormed | codes.ts:4-41 | the 2xx entries are well-formed |
| StatusTable.RedirectionWellFormed | codes.ts:43-70 | the 3xx entries are well-formed |
| StatusTable.ClientErrorEntries | codes.ts:72-200 | each 4xx entry, in three ranges, meets the entry conditions |
| StatusTable.ClientErrorWellFormed | codes.ts:72-200 | the 4xx entries are well-formed |
| StatusTable.ServerErrorWellFormed | codes.ts:202-252 | the 5xx entries are well-formed |
| StatusTable.CodesBlockWellFormed | codes.ts:3-253 | every entry has names and negations, each code is below the next, and every code is in 200..599 |
| StatusTable.CodesHaveBodylessCodes | codes.ts:1-59 | 204, 205 and 304 each occur as a code of the table |
| StatusCodes.BlockHasPhrasesAppend | scripts/prebuild.ts:7 | two blocks whose codes all have reason phrases join into one |
| StatusCodes.SuccessfulHasPhrases | codes.ts:4-41 | every 2xx code of the table has a reason phrase |
| StatusCodes.RedirectionHasPhrases | codes.ts:43-70 | every 3xx code of the table has a reason phrase |
| StatusCodes.ClientErrorHasPhrases | codes.ts:72-200 | every 4xx code of the table has a reason phrase |
| StatusCodes.ServerErrorHasPhrases | codes.ts:202-252 | every 5xx code of the table has a reason phrase |
| StatusCodes.CodesHavePhrases | scripts/prebuild.ts:7-8 | no code of the table is rendered with the phrase "undefined" |
| IdentifierSlots.BlockSlottedAppend | codes.ts:3-253 | place recovery for two consecutive blocks gives place recovery for their concatenation |
| IdentifierSlots.UniqueFromSlots | codes.ts:3-253 | a table whose every identifier's place can be recovered from the identifier has no identifier twice |
| IdentifierSlots.SuccessfulSlotted | codes.ts:4-41 | the place of every 2xx identifier is recovered from its text |
| IdentifierSlots.RedirectionSlotted | codes.ts:43-70 | the place of every 3xx identifier is recovered from its text |
| IdentifierSlots.ClientErrorSlotted | codes.ts:72-200 | the place of every 4xx identifier is recovered from its text |
| IdentifierSlots.ServerErrorSlotted | codes.ts:202-252 | the place of every 5xx identifier is recovered from its text |
| IdentifierSlots.CodesUniqueIdentifiers | codes.ts:3-253 | all identifiers across every `names` and `negations` list are pairwise distinct |
| PlainIdentifiers.IdentifiersPlainAppend | codes.ts:3-253 | plain identifiers in two blocks give plain identifiers in their concatenation |
| PlainIdentifiers.SuccessfulPlain | codes.ts:4-41 | no 2xx identifier holds a `$` or a `!` |
| PlainIdentifiers.RedirectionPlain | codes.ts:43-70 | no 3xx identifier holds a `$` or a `!` |
| PlainIdentifiers.ClientErrorPlain | codes.ts:72-200 | no 4xx identifier holds a `$` or a `!` |
| PlainIdentifiers.ServerErrorPlain | codes.ts:202-252 | no 5xx identifier holds a `$` or a `!` |
| PlainIdentifiers.CodesIdentifiersPlain | codes.ts:3-253 | no identifier of the table holds a `$` or a `!` |
| IdentifierSlots.CodesWellFormed | codes.ts:1-253 | the table meets every condition of the well-formedness predicate |
| Bindings.InterpretAppend | src/main.ts:38-1189 | loading two runs of declarations in turn is loading their concatenation, and a failure stops the load |
| Bindings.BindLookup | src/main.ts:38-1189 | binding names to a function exports each of them as that function and keeps every other export |
| Bindings.DeclareAllFresh | src/main.ts:39 | exporting distinct fresh alias names succeeds and binds each to the aliased function |
| Bindings.BlockLoads | scripts/prebuild.ts:59-68 | a canonical declaration followed by its alias line loads, binding the name and every alias to one function |
| Bindings.EntryLoads | scripts/prebuild.ts:58-78 | an entry's declarations load when its identifiers are distinct and new, binding its names to the assertion and its negations to the negation |
| Bindings.ExportsKeys | src/main.ts:38-1189 | the module exports exactly the identifiers of the table |
| Bindings.ExportsDenote | src/main.ts:38-1189 | with distinct identifiers each name denotes its entry's assertion, and each negation the negation of that assertion |
| Bindings.ModuleLoads | scripts/prebuild.ts:52-81 | a table with non-empty name lists and distinct identifiers generates a module that loads and exports exactly the table's bindings |
| Bindings.DeclareAllSome | src/main.ts:39 | an alias line that loads had distinct alias names, none already exported |
| Bindings.BlockSome | scripts/prebuild.ts:59-68 | a canonical block that loads had distinct new names |
| Bindings.EntrySome | scripts/prebuild.ts:58-78 | an entry block that loads had distinct new identifiers |
| Bindings.LoadsOnlyIfUnique | scripts/prebuild.ts:52-81 | the generated module loads only if the table's identifiers are pairwise distinct |
| Emit.DocCommentStatus | scripts/prebuild.ts:6-18 | the comment names the status in its summary line and again in its `@throws` line |
| Emit.DocCommentWord | scripts/prebuild.ts:9-14 | the comment uses the same condition word in its summary line and its `@param condition` line |
| Emit.DocCommentTruthiness | scripts/prebuild.ts:9 | the word is "truthy" exactly for an assertion and "falsy" exactly for a negation |
| Emit.RenderAppend | scripts/prebuild.ts:58-78 | rendering declarations one after the other is rendering their concatenation |
| Emit.MessageArgOf | scripts/prebuild.ts:59-61 | the message argument is omitted exactly for the codes that must not carry a body, and is the quoted reason phrase otherwise |
| Emit.RenderAliases | scripts/prebuild.ts:62-68 | alias declarations render as the alias line when there are aliases, and as nothing otherwise |
| Emit.EntryTextRendersDecls | scripts/prebuild.ts:58-78 | the text emitted for an entry is the rendering of exactly its declarations in order: assertion, alias line, negation of the canonical name, negation alias line |
| Emit.MainTextDeclares | scripts/prebuild.ts:21-82 | src/main.ts is the preamble followed by the entries' rendered declarations in table order, joined by newlines |
| Emit.AliasLineIffAliases | scripts/prebuild.ts:62-68 | an alias line is emitted exactly when there are aliases, as `name as alias` clauses joined by ", " |
| GeneratedModule.MainLoads | src/main.ts:38-1189 | the generated src/main.ts loads and exports exactly the table's bindings |
| GeneratedModule.ExportAt | src/main.ts:38-1189 | every identifier of the table is exported as its entry's assertion or negation |
| GeneratedModule.CanonicalExport | src/main.ts:38 | each entry's canonical name is the assertion for its code and default message |
| GeneratedModule.OkExports | src/main.ts:38-49 | `ok` and `successful` are the assertion for 200 with "OK"; `notOk` and `failed` are its negation |
| GeneratedModule.RedirectExports | src/main.ts:274-275 | `redirect` is `temporaryFound`, the assertion for 302 with "Found" |
| GeneratedModule.ValidExports | src/main.ts:401-402 | `valid` and `correct` are `goodRequest`, the negation of the assertion for 400 |
| GeneratedModule.FoundExport | src/main.ts:472-481 | `found` is the negation of `notFound`, the assertion for 404 |
| GeneratedModule.NullBodyCodesOfTable | codes.ts:1 | among the table's codes, the null body statuses are exactly the codes bound without a message |
| GeneratedModule.CanonicalAssertionsAndBodies | src/main.test.ts:317-338 | every canonical assertion throws its code without a body; with "Custom Body" it throws a response exactly when its code may carry a body, and a TypeError otherwise |
| GeneratedModule.OkExamples | src/main.test.ts:227-234 | `ok()` and `ok(false)` return; `ok(true)` and `ok([])` throw 200 with "OK" |
| GeneratedModule.NotOkExamples | src/main.test.ts:291-299 | `notOk(true)` and `notOk([])` return; `notOk()` and `notOk(false)` throw 200 with "OK" |
| GeneratedModule.NegatedExamples | src/main.test.ts:302-314 | `valid(false, "Invalid input")` throws 400 and `found(null, "Item not found")` throws 404, each with the given body |
| ReadmeGroups.CenturyBounds | scripts/prebuild.ts:107 | the bucket is a multiple of 100 within 99 below the code |
| ReadmeGroups.CenturyUnique | scripts/prebuild.ts:107 | the bucket is the only such multiple |
| ReadmeGroups.CenturyMonotone | scripts/prebuild.ts:107 | buckets follow the order of the codes |
| ReadmeGroups.CenturyNonNegative | scripts/prebuild.ts:107 | a non-negative code has a non-negative bucket |
| ReadmeGroups.CenturyOfStatus | scripts/prebuild.ts:84-89 | codes in 200..599 fall into the buckets 200, 300, 400 and 500, the keys of `groups` |
| ReadmeGroups.GroupKeys | scripts/prebuild.ts:107 | the keys `Object.groupBy` creates are pairwise distinct |
| ReadmeGroups.HasCenturyLast | scripts/prebuild.ts:107 | dropping the last entry drops at most that entry's bucket |
| ReadmeGroups.GroupKeysMembers | scripts/prebuild.ts:107 | a key is created exactly when some entry falls in its bucket |
| ReadmeGroups.Group | scripts/prebuild.ts:107 | a group holds only entries of its bucket and is no longer than the table |
| ReadmeGroups.GroupFromTable | scripts/prebuild.ts:107 | a group takes its entries from the table, each no more often than the table holds it |
| ReadmeGroups.GroupOfAbsent | scripts/prebuild.ts:107 | a bucket no entry falls in has no entries |
| ReadmeGroups.IndexKeys | scripts/prebuild.ts:106 | the keys selected as array indices are all array indices |
| ReadmeGroups.OtherKeys | scripts/prebuild.ts:106 | the keys selected as other keys are no array indices |
| ReadmeGroups.Insert | scripts/prebuild.ts:106 | inserting adds exactly the one element |
| ReadmeGroups.InsertAscending | scripts/prebuild.ts:106 | inserting into an ascending sequence keeps it ascending |
| ReadmeGroups.SortAscending | scripts/prebuild.ts:106 | the result is ascending and a permutation of the input |
| ReadmeGroups.SortStep | scripts/prebuild.ts:106 | inserting the first key into the sorted rest sorts the whole |
| ReadmeGroups.KeysSplit | scripts/prebuild.ts:106 | index keys and other keys together are all the keys |
| ReadmeGroups.OtherKeysAppend | scripts/prebuild.ts:106 | selecting other keys distributes over concatenation |
| ReadmeGroups.OtherKeysOfIndexKeys | scripts/prebuild.ts:106 | a sequence of array indices has no other keys |
| ReadmeGroups.EntriesOrderPermutes | scripts/prebuild.ts:106 | `Object.entries` lists every key once |
| ReadmeGroups.EntriesOrderIndicesFirst | scripts/prebuild.ts:106 | array-index keys come first, ascending |
| ReadmeGroups.SortedIndexKeys | scripts/prebuild.ts:106 | the sorted index keys are array indices |
| ReadmeGroups.EntriesOrderOthersLast | scripts/prebuild.ts:106 | the other keys keep their creation order |
| ReadmeGroups.OtherKeysOfOthers | scripts/prebuild.ts:106 | keys that are no array indices are all kept |
| ReadmeGroups.SortOfAscending | scripts/prebuild.ts:106 | sorting an ascending sequence leaves it unchanged |
| ReadmeGroups.EntriesOrderOfAscending | scripts/prebuild.ts:106 | ascending array-index keys are listed as created |
| ReadmeGroups.ReadmeKeysMembers | scripts/prebuild.ts:106-107 | the README has one group for each bucket some entry falls in, and no other |
| ReadmeGroups.DistinctCount | scripts/prebuild.ts:106-107 | a key occurs in distinct keys at most once |
| ReadmeGroups.FlattenOtherGroups | scripts/prebuild.ts:107 | adding an entry changes no other group |
| ReadmeGroups.FlattenLast | scripts/prebuild.ts:106-108 | listing one more key appends its group |
| ReadmeGroups.LastBucketHighest | scripts/prebuild.ts:107 | in an ascending table the last entry's bucket is the highest key so far |
| ReadmeGroups.HighestIsLast | scripts/prebuild.ts:107 | in strictly ascending keys the highest is the last |
| ReadmeGroups.FlattenIntoLast | scripts/prebuild.ts:107 | an entry of the last bucket extends the grouped listing at its end |
| ReadmeGroups.SplitLast | scripts/prebuild.ts:107 | strictly ascending keys ending in their highest split into a front and that key |
| ReadmeGroups.GroupsOfAscendingOld | scripts/prebuild.ts:107 | an entry of the last bucket creates no key and extends the listing |
| ReadmeGroups.GroupsOfAscendingNew | scripts/prebuild.ts:107 | an entry opening a higher bucket keeps the keys ascending and the listing whole |
| ReadmeGroups.GroupsOfAscending | scripts/prebuild.ts:107 | for a table in ascending code order the groups are created in ascending order, and listing them gives back the table in table order |
| ReadmeGroups.ReadmeKeysOfAscending | scripts/prebuild.ts:106-108 | with array-index buckets the README lists groups in ascending key order and every entry in table order |
| ReadmeGroups.GroupWithinHeadingRange | scripts/prebuild.ts:110-112 | every code of a group lies in the range its heading names, from the key to the key + 99 |
| ReadmeGroups.Unquote | scripts/prebuild.ts:92-94 | reading a quoted name consumes at least its two backticks |
| ReadmeGroups.UnquoteQuote | scripts/prebuild.ts:92 | a quoted name without backticks is read back with the text after it |
| ReadmeGroups.QuotedListRoundTrip | scripts/prebuild.ts:94 | a ", "-joined list of quoted names reads back as the names |
| ReadmeGroups.PrintFunctionsRoundTrip | scripts/prebuild.ts:91-96 | the cell `printFunctions` writes for a non-empty list of names reads back as the same list |
| ReadmeGroups.AliasPartIffAliases | scripts/prebuild.ts:93-95 | the `<br> _(...)_` part is written exactly when there are aliases |
| ReadmeGroups.Rows | scripts/prebuild.ts:114-120 | the header row "Status Code", "Function _(Aliases)_", "Negated Function _(Aliases)_", then one row per entry |
| ReadmeGroups.RowsRoundTrip | scripts/prebuild.ts:116-120 | each row reads back as its entry's code, names and negations |
| ReadmeGroups.Sections | scripts/prebuild.ts:106-121 | one section per group |
| ReadmeGroups.QuotePlain | scripts/prebuild.ts:92 | quoting a plain name gives plain text |
| ReadmeGroups.PrintFunctionsPlain | scripts/prebuild.ts:91-96 | the cell written for plain names holds no `$` and no `!` |
| ReadmeGroups.TitlePlain | scripts/prebuild.ts:84-89 | every group title is plain |
| ReadmeGroups.HeadingPlain | scripts/prebuild.ts:110-112 | every section heading holds no `$` and no `!` |
| ReadmeGroups.EntryRowPlain | scripts/prebuild.ts:116-120 | the three cells of an entry with plain identifiers are plain |
| ReadmeGroups.RowsPlain | scripts/prebuild.ts:114-120 | every cell of the rows of entries with plain identifiers is plain |
| ReadmeGroups.SectionsPlain | scripts/prebuild.ts:106-121 | for a table with plain identifiers every section is plain, given a `markdownTable` that keeps plain cells plain |
| ReadmeGroups.ReadmeOfRange | scripts/prebuild.ts:84-121 | for an ascending table of codes in 200..599 the groups are among 200..500, ascending, each with a title, and list every entry once in table order |
| ReadmeGroups.CodesReadme | scripts/prebuild.ts:84-121 | the same for the status table |
| ReadmeRewrite.Reference | scripts/prebuild.ts:104-126 | a replacement reference consumes at least one character and no more than remain |
| ReadmeRewrite.SubstituteLiteral | scripts/prebuild.ts:104-126 | a replacement string without `$` is inserted as it is |
| ReadmeRewrite.SubstituteSpecials | scripts/prebuild.ts:102-103 | `$$`, `` $` ``, `$&` and `$'` expand to a dollar sign, the text before the match, the match and the text after it |
| ReadmeRewrite.SubstituteCaptures | scripts/prebuild.ts:103 | `$1` and `$01` expand to the capture; `$10` is the capture followed by 0 |
| ReadmeRewrite.SubstituteUnknown | scripts/prebuild.ts:103 | `$00`, `$2` and `$<` stay as written |
| ReadmeRewrite.Locate | scripts/prebuild.ts:103 | a match lies within the text, its close at or after the end of its open |
| ReadmeRewrite.ReplaceWithoutRegion | scripts/prebuild.ts:102-103 | a text without a region is returned unchanged |
| ReadmeRewrite.LocateNone | scripts/prebuild.ts:103 | the expression matches nowhere exactly when the text has no start marker followed by an end marker |
| ReadmeRewrite.OpenPlace | scripts/prebuild.ts:103 | the first open is the one after a prefix free of it |
| ReadmeRewrite.ClosePlace | scripts/prebuild.ts:103 | the first close after a point is the one after a middle free of it |
| ReadmeRewrite.CloseAfterMid | scripts/prebuild.ts:103 | the close occurs right after the middle |
| ReadmeRewrite.NoCloseInMid | scripts/prebuild.ts:103 | no close starts within a middle free of it |
| ReadmeRewrite.OpenInRegion | scripts/prebuild.ts:103 | the first open of a text with a region is the region's |
| ReadmeRewrite.CloseInRegion | scripts/prebuild.ts:103 | the nearest close after that open is the region's |
| ReadmeRewrite.RegionPlaces | scripts/prebuild.ts:103 | the match starts at the region's open and ends at its close |
| ReadmeRewrite.ReplaceFirstRegion | scripts/prebuild.ts:100-127 | only the first region, up to the nearest end marker, is replaced by what the replacement makes of the match; the text before and after it is kept |
| ReadmeRewrite.ReplaceAtPlaces | scripts/prebuild.ts:100-127 | with the match located, the replacement keeps the text around it |
| ReadmeRewrite.ReplaceFound | scripts/prebuild.ts:100-127 | a located match lies within the text and is where the replacement is made |
| ReadmeRewrite.Located | scripts/prebuild.ts:103 | the match starts at the first open and ends at the first close after it |
| ReadmeRewrite.ReplaceAtRegion | scripts/prebuild.ts:100-127 | replacing at the region's places keeps the text around it and passes the region and its inside to the replacement |
| ReadmeRewrite.ReplaceFirstRegionLiterally | scripts/prebuild.ts:100-127 | a template without `$` replaces the region word for word |
| ReadmeRewrite.LocateRegion | scripts/prebuild.ts:103 | where the expression matches, open and close occur there, each the first of its kind |
| ReadmeRewrite.SplitAtRegion | scripts/prebuild.ts:103 | a text with a region splits into the text before the first open, the lazy middle and the text after the close |
| ReadmeRewrite.CutAtRegion | scripts/prebuild.ts:103 | an open and a later close cut the text into five parts |
| ReadmeRewrite.FirstOpenOfSplit | scripts/prebuild.ts:103 | no earlier open in the text means none before the end of the prefix |
| ReadmeRewrite.FirstCloseOfSplit | scripts/prebuild.ts:103 | no earlier close in the text means none before the end of the middle |
| ReadmeRewrite.ReplaceByMatchKeepsText | scripts/prebuild.ts:102-103 | replacing the region by `$&` changes nothing |
| ReadmeRewrite.ReplaceRegionIdempotent | scripts/prebuild.ts:100-127 | replacing a region a second time by the same marked, `$`-free body changes nothing |
| ReadmeRewrite.FirstCloseAfterLineBreak | scripts/prebuild.ts:124-126 | a body ending in a line break and holding no end marker is followed by the first end marker |
| ReadmeRewrite.RegionBodyPlain | scripts/prebuild.ts:124-126 | the generated region of a table with plain identifiers is plain, given a `markdownTable` that keeps plain cells plain |
| ReadmeRewrite.PlainBodySafe | scripts/prebuild.ts:103-126 | plain generated text holds no `$` and no occurrence of the end marker |
| ReadmeRewrite.MarkersPlain | scripts/prebuild.ts:103-126 | the markers hold no `$` and the end marker no line break |
| ReadmeRewrite.UpdateReadmeReplacesRegion | scripts/prebuild.ts:98-128 | for a table with plain identifiers and a `markdownTable` that keeps plain cells plain, the README gets the generated tables between its markers and keeps the text before the start marker and after the end marker |
| ReadmeRewrite.CodesReadmeReplacesRegion | scripts/prebuild.ts:98-128 | the same for the status table, given only the `markdownTable` assumption |
| ReadmeRewrite.ReplaceByMarkedBody | scripts/prebuild.ts:100-127 | a region replaced by a marked `$`-free body keeps its markers and takes the body |
| ReadmeRewrite.NoDollarConcat | scripts/prebuild.ts:104-126 | `$`-free parts make a `$`-free template |
| ReadmeRewrite.UpdateReadmeIdempotent | scripts/prebuild.ts:98-128 | running the prebuild twice leaves the README as the first run left it, for a table with plain identifiers and a `markdownTable` that keeps plain cells plain |
| ReadmeRewrite.CodesReadmeIdempotent | scripts/prebuild.ts:98-128 | the same for the status table, given only the `markdownTable` assumption |
| ReadmeRewrite.UpdateReadmeWithoutMarkers | scripts/prebuild.ts:98-128 | a README without the markers is written back unchanged |
| Text.NatText | scripts/prebuild.ts:117 | the decimal text of a number is a non-empty string of digits without a leading zero |
| Text.NatTextRoundTrip | scripts/prebuild.ts:117 | the decimal text of a natural number reads back as that number |
| Text.IntTextRoundTrip | scripts/prebuild.ts:117 | `String(code)` is a numeral reading back as the code |
| Text.IntTextInjective | scripts/prebuild.ts:117 | distinct codes get distinct texts |
| Text.IndexOfFirst | scripts/prebuild.ts:103 | the search finds the first occurrence at or after its start, or reports none |
| Text.IndexOfIs | scripts/prebuild.ts:103 | an occurrence with none before it is what the search finds |
| Text.PlainConcat | scripts/prebuild.ts:21-128 | plain texts concatenate to plain text |
| Text.JoinPlain | scripts/prebuild.ts:94 | plain parts joined by a plain separator are plain |
| Text.IntTextPlain | scripts/prebuild.ts:117 | `String(code)` is plain |
| Text.PlainAvoids | scripts/prebuild.ts:103 | plain text holds no occurrence of a word with a `$` or a `!` |

## Left out

- Reading and writing src/main.ts and README.md, and the top-level `await`, are left out. The generator is modelled as functions from the table and the README text to strings.
- `markdownTable` of the markdown-table package is a parameter of the README functions (a function of the row matrix); its output is not modelled.
- ReadmeRewrite.UpdateReadmeIdempotent: rests on one assumption about `markdownTable`, `KeepsPlain`: a matrix whose cells hold neither `$` nor `!` is rendered to text holding neither. The package adds only spaces, pipes, dashes, colons and line breaks, but its code is not part of this model.
- ReadmeRewrite.UpdateReadmeReplacesRegion: rests on the same `KeepsPlain` assumption about `markdownTable`.
- ReadmeRewrite.CodesReadmeIdempotent: rests on the same `KeepsPlain` assumption about `markdownTable`.
- ReadmeRewrite.CodesReadmeReplacesRegion: rests on the same `KeepsPlain` assumption about `markdownTable`.
- ReadmeRewrite.RegionBodyPlain: rests on the same `KeepsPlain` assumption about `markdownTable`.
- ReadmeGroups.SectionsPlain: rests on the same `KeepsPlain` assumption about `markdownTable`.
- Text.IndexOf: for an empty needle and a start past the end, `indexOf` in JavaScript answers the length of the text and the model answers -1. The generator only searches for its non-empty markers.
- `STATUS_CODES` of `node:http` is modelled for the table's codes only. Any other code gives "undefined", as a template string shows it.
- The `Response` object is a record of its body and init. Its headers, WebIDL conversion of the init and status, the status range check and the body readers `.text()`/`.json()` are not modelled. A non-integer or out-of-range `status` in an init is therefore not an error here. An init `statusText` that is not a valid reason phrase is a TypeError when the platform builds the `Response`; the model throws a response carrying that text. A body that is not a string (a number, an object) is converted to a string when the response is built; the model keeps the body as the value it was given.
- Numbers are integers: NaN, -0 and fractions are not values of the model.
- Spreading a string or an array as init (its index keys) is not modelled: such an init contributes no fields.
- A body thunk or init thunk that throws is not modelled; a thunk is the value it returns.
- The TypeScript types `HttpResponseAssertion`, `HttpResponseAssertionFalsy` and their `asserts` clauses are compile-time only; `Falsy` is modelled as a predicate.
- The JSDoc comments in src/main.ts are modelled once, through `jsDocComment`.
- Named capture groups and `$<name>` are not modelled: the marker expression has none, so `$<` stays literal, as it does without named groups.
- The regular expression's `m` flag has no effect on this pattern, which has no `^` or `$` anchors, and is not modelled.
- The test harness (`safe`, `assertStatusAndBody`) and the typing tests of src/main.test.ts are left out; their assertions are stated as lemmas.
- The heading separator is kept as the three characters scripts/prebuild.ts:110 holds, a mis-decoded en dash.
- ReadmeGroups.Sections: states only the number of sections, as the section texts depend on `markdownTable`.
