# Portfolio field-lookup query engine, modelled in Dafny

This project models the query engine behind an interactive portfolio site.
The engine answers two kinds of queries over static, in-memory catalogs:

- GraphQL-like queries on the API page: `{ f1 f2 }` (freestyle) and
  `{ category { f1 f2 } }` (scoped), with an optional leading `query`;
- terminal commands: `help`, `clear`, `fields`, `theme <name>`, `category[]`,
  and comma- or space-separated field lists.

The catalogs hold, for each category, its normal data and a hidden overlay,
plus extra data, an ordered alias table and the description tables. They are
parameters of the model (`Catalog.Portfolio`, `Desc.Descriptions`,
`Hidden.HiddenGroup`), never transcribed values.

Every field token is resolved through the alias table. It is then
classified `normal`, `hidden` or `invalid`, either within one category
(`analyzeField`) or globally (`findFieldAnywhere`, whose category order
differs between the two surfaces). Results are keyed by the token as
written, and three counters are tallied. Next to the engine sit:

- the session statistics of the GraphQL page (a mutable record with a
  history capped at 50);
- the hidden-command lookup;
- the description tables with field listing and search;
- the category browser's example-query builders;
- the query builder's selection, field tree and suggestions.

Modules, one per concern:

| module | file | models |
|---|---|---|
| `Text`, `Split`, `StringOrder`, `Values` | text.dfy, split.dfy, order.dfy, values.dfy | the JavaScript built-ins the core relies on: `trim`, `\s`, `toLowerCase`, `split`, `join`, `Array.prototype.sort` on strings, `Set.add`, truthiness and property lookup |
| `QuerySyntax` | query_syntax.dfy | the three regular expressions of the API executor, restated as predicates and scanners |
| `Catalog` | catalog.dfy | `resolveSimilarField`, `analyzeField`, `findFieldAnywhere`, `getCategoryData` (shared by both surfaces; the category order and the extra-data tag are parameters) |
| `FieldTally` | tally.dfy | the per-token classification and the counters of every lookup loop |
| `DataService` | data_service.dfy | `src/api/dataService.ts` |
| `ApiExecutor` | api_executor.dfy | `src/api/executor.ts` |
| `DataManager` | data_manager.dfy | `src/terminal/dataManager.ts` |
| `TerminalExecutor` | terminal_executor.dfy | `src/terminal/executor.ts` |
| `Desc` | desc.dfy | `src/data/desc.ts` |
| `Hidden` | hidden.dfy | `src/data/hidden.ts` |
| `GraphqlStats` | graphql_stats.dfy | `src/composables/useGraphqlStats.ts` (class `SessionStats`) |
| `CategoryInfo` | category_info.dfy | `src/composables/useCategoryInfo.ts` |
| `QueryBuilder` | query_builder.dfy | `src/utils/queryBuilder.ts` (class `QueryBuilder`) |

Code that works by loops and in-place updates is modelled as methods proved
equal to a specification function:

- `getData`, `getFieldsFreestyle`, `getHelpData` and `getFieldsByNames`;
- the alias and catalog searches;
- the flattening of the hidden catalog;
- `getAllFields`, `getAvailableFields` and `getFieldsByCategory`;
- the `categories`/`freestyleInfo` builders;
- `getAllPaths`.

The mutable records of the statistics and of the query builder are classes
whose methods update their fields. The properties are proved about the
specification functions.

## Model

| member | source | states |
|---|---|---|
| `Text.Trim` | src/api/executor.ts:9 | `String.prototype.trim`: the result has no white space at either end |
| `Text.TrimEmptyIff` | src/api/executor.ts:9 | trimming leaves nothing exactly when the input is white space only (the `!query?.trim()` test) |
| `Text.TrimSurrounded` | src/api/executor.ts:19 | trimming removes exactly the white space around a non-empty trimmed text |
| `Text.TrimIdempotent` | src/terminal/dataManager.ts:192 | trimming twice is trimming once |
| `Text.TrimLower` | src/terminal/dataManager.ts:192 | lower-casing commutes with trimming, so `toLowerCase().trim()` and `trim().toLowerCase()` agree |
| `Text.LowerStrIdempotent` | src/terminal/dataManager.ts:170 | lower-casing twice is lower-casing once |
| `Text.Capitalize` | src/composables/useCategoryInfo.ts:66 | the first character is upper-cased and the rest kept |
| `Split.Words` | src/api/executor.ts:26 | `trim().split(/\s+/).filter(Boolean)`: every word is non-empty and free of white space |
| `Split.WordsTrim` | src/api/executor.ts:71 | trimming first does not change the words |
| `Split.WordsJoin` | src/api/executor.ts:71 | splitting words joined by white space gives the words back |
| `Split.SplitOn` | src/terminal/dataManager.ts:260 | `split(c)`: at least one piece, no piece contains `c` |
| `Split.JoinSplitOn` | src/terminal/dataManager.ts:260 | joining the pieces of `split(c)` with `c` restores the string |
| `Split.SplitOnJoin` | src/terminal/dataManager.ts:260 | splitting a join of `c`-free pieces on `c` gives the pieces back |
| `StringOrder.Sort` | src/terminal/dataManager.ts:104 | `Array.prototype.sort` on strings: sorted by UTF-16 code units and a permutation of the input |
| `StringOrder.Units` | src/terminal/dataManager.ts:104 | the UTF-16 encoding of a character: one unit below U+10000, otherwise a high and a low surrogate that together give the code point back |
| `StringOrder.UnitRankOrder` | src/terminal/dataManager.ts:104 | the character order the model sorts by agrees with comparing UTF-16 code units, surrogate pairs included, so a character above U+FFFF sorts before one in U+E000-U+FFFF |
| `StringOrder.Insert` | src/terminal/dataManager.ts:104 | inserting into a sorted list keeps it sorted and adds exactly one occurrence |
| `StringOrder.SortedPermutationUnique` | src/terminal/dataManager.ts:117 | two sorted permutations of one list are equal, so the sorted output depends only on the contents |
| `StringOrder.SortDistinct` | src/terminal/dataManager.ts:104 | sorting a duplicate-free list gives a strictly increasing list with the same members |
| `StringOrder.StrictlySortedUnique` | src/terminal/dataManager.ts:104 | two strictly increasing lists with the same members are equal |
| `StringOrder.BelowTransitive` | src/terminal/dataManager.ts:104 | the code-unit order used by `sort` is transitive |
| `StringOrder.BelowTotal` | src/terminal/dataManager.ts:104 | any two distinct strings are ordered one way |
| `StringOrder.Add` | src/terminal/dataManager.ts:90 | `Set.add`: the new member is present, nothing else changes, a set stays a set |
| `Values.Get` | src/data/hidden.ts:73 | property lookup: present exactly when the object has the key, and then it is that key's value |
| `Values.Keys` | src/data/hidden.ts:73 | `Object.keys` as a set: exactly the keys the object holds |
| `QuerySyntax.Clean` | src/api/executor.ts:19 | `replace(/^query\s*/, '').trim()` leaves a trimmed string |
| `QuerySyntax.FreestyleFields` | src/api/executor.ts:22-26 | the freestyle pattern `^\{\s*([^{}]+)\s*\}$` matches exactly the freestyle shape |
| `QuerySyntax.FreestyleFieldsAreWords` | src/api/executor.ts:22-26 | the freestyle fields are the words of the text inside the braces |
| `QuerySyntax.FindCategoryMatch` | src/api/executor.ts:49 | the category pattern matches exactly when it matches at some position |
| `QuerySyntax.FirstCategoryIndex` | src/api/executor.ts:49 | the match is the leftmost one: none starts earlier |
| `QuerySyntax.CategoryMatchAt` | src/api/executor.ts:49 | a match has a non-empty `\w+` category and a body free of `}` |
| `QuerySyntax.CategoryMatchSound` | src/api/executor.ts:49 | a match at a position is `{`, spaces, the category, spaces, `{`, the body and `}` there |
| `QuerySyntax.CategoryMatchComplete` | src/api/executor.ts:49 | conversely, every such text at a position is matched there, with that category and body |
| `ApiExecutor.Parse` | src/api/executor.ts:8-92 | the query is refused as empty exactly when its trimmed form is empty |
| `ApiExecutor.ParseClean` | src/api/executor.ts:22-92 | after the strip: freestyle exactly on the freestyle shape, with the pattern's fields; a category answer only for a valid category; never "empty" or "category required" |
| `ApiExecutor.EmptyIff` | src/api/executor.ts:9-16 | "Query cannot be empty" is returned exactly for white-space-only input |
| `ApiExecutor.NeverCategoryRequired` | src/api/executor.ts:61-68 | the "Category is required" error can never be returned, since `\w+` never captures the empty string |
| `ApiExecutor.FreestyleIff` | src/api/executor.ts:22-31 | a query is answered in freestyle mode exactly when `isFreestyleQuery` holds, with the words inside the braces as fields |
| `ApiExecutor.FreestyleModeIff` | src/api/executor.ts:22-36 | `execute` answers with mode `freestyle` exactly when the query has the freestyle shape |
| `ApiExecutor.CategoryParse` | src/api/executor.ts:49-92 | a non-freestyle query with a category match gets that category and its body's words, or the invalid-category error when the category is not one of the six |
| `ApiExecutor.NoFormRefused` | src/api/executor.ts:49-58 | a non-blank query that is neither freestyle nor holds `{ word { ... }` anywhere gets the invalid-format error |
| `ApiExecutor.Spread` | src/api/executor.ts:101-104 | `{ ...result.data, __metadata }`: every data key other than `__metadata` keeps its value, and `__metadata` is the metadata |
| `ApiExecutor.Execute` | src/api/executor.ts:8-113 | an error is returned exactly when the parse refuses the query, and it is that refusal's error; success and error shapes are exclusive |
| `ApiExecutor.ExecuteQuery` | src/api/executor.ts:115-126 | empty or non-string input is rejected before `execute`; anything else is `execute` |
| `Catalog.GetCategoryData` | src/api/dataService.ts:225-235 | data exists exactly for the five real categories that hold data, and it is their normal data |
| `Catalog.Resolve` | src/api/dataService.ts:143-155 | the canonical name of the first alias entry listing the token, ignoring case; otherwise the token unchanged |
| `Catalog.ResolveSimilarField` | src/terminal/dataManager.ts:476-487 | the search loop returns `Resolve` |
| `Catalog.ResolveFirst` | src/api/dataService.ts:143-155 | when entry `i` is the first to list the token, the result is entry `i`'s canonical name |
| `Catalog.ResolveIgnoresCase` | src/api/dataService.ts:146 | tokens equal up to case resolve alike when an alias lists them; otherwise each keeps its own case |
| `Catalog.AnalyzeField` | src/api/dataService.ts:200-223 | hidden exactly when the category's overlay has the field; normal exactly when only its normal data has it; invalid yields null; no source; extra data is never consulted |
| `Catalog.FirstHidden` | src/api/dataService.ts:170-181 | the first category, in order, whose hidden overlay has the field |
| `Catalog.FirstNormal` | src/api/dataService.ts:183-194 | the first category, in order, whose normal data has the field |
| `Catalog.FindFieldAnywhere` | src/api/dataService.ts:157-198 | the two search loops with early return compute `Locate` |
| `Catalog.LocatePrecedence` | src/api/dataService.ts:157-198 | extra data first, then the first hidden overlay in order, then the first normal data in order; invalid exactly when no category has the field |
| `Catalog.LocateSource` | src/terminal/dataManager.ts:489-527 | a source is reported exactly for found fields, and it is the extra tag or one of the searched categories |
| `Catalog.ScopedImpliesGlobal` | src/api/dataService.ts:157-223 | a field found by the scoped lookup in a searched category is also found by the global lookup |
| `Catalog.OrdersDisagree` | src/api/dataService.ts:158 | with the field hidden in both experience and education, the API reports `experience` and the terminal `education` |
| `Catalog.OrdersAgree` | src/terminal/dataManager.ts:489-527 | when at most one category holds the field per layer, both surfaces find the same value and type, and the same source outside extra data |
| `FieldTally.HelpTable` | src/api/dataService.ts:239-242 | `{ ...categoryDesc, freestyle: freestyleDesc }`: the category keys plus `freestyle`, with `freestyle` winning |
| `FieldTally.TallyStep` | src/api/dataService.ts:41-58 | one loop iteration records exactly one more token |
| `FieldTally.TallyCounts` | src/api/dataService.ts:41-77 | each counter is the number of tokens of its type, duplicates counted separately, and the three add up to the token count |
| `FieldTally.TallyKeys` | src/api/dataService.ts:53-68 | the result and `fieldTypes` are keyed by exactly the tokens as written |
| `FieldTally.TallyValues` | src/api/dataService.ts:53-68 | each token's stored value and recorded type are those of its own lookup |
| `FieldTally.TallySources` | src/terminal/dataManager.ts:390-392 | `sources` has an entry exactly for found tokens, holding where each was found |
| `FieldTally.HelpIndexNeverHidden` | src/api/dataService.ts:256-268 | the help lookup never counts a hidden field |
| `FieldTally.HelpToken` | src/api/dataService.ts:42-48 | `help` in freestyle yields the freestyle description as normal; in a category it is normal exactly when the category has a description |
| `DataService.WholeCategory` | src/api/dataService.ts:28-39 | no fields: the category's normal data, never hidden fields, with total = valid = its key count and hidden = invalid = 0 |
| `DataService.Data` | src/api/dataService.ts:11-80 | `getData` never sets a mode |
| `DataService.FieldsFreestyle` | src/api/dataService.ts:82-127 | `getFieldsFreestyle` always sets mode `freestyle` |
| `DataService.LookupScoped` | src/api/dataService.ts:42-57 | one iteration's lookup in `getData` is the scoped classification |
| `DataService.LookupFreestyle` | src/api/dataService.ts:89-103 | one iteration's lookup in `getFieldsFreestyle` is the global classification in the API's order |
| `DataService.GetData` | src/api/dataService.ts:11-80 | the two loops compute `Data` |
| `DataService.GetFieldsFreestyle` | src/api/dataService.ts:82-127 | the two loops compute `FieldsFreestyle` |
| `DataService.GetHelpData` | src/api/dataService.ts:237-285 | the loops compute `HelpData` |
| `DataService.HelpClassify` | src/api/dataService.ts:260-273 | a help token is normal with its description exactly when it is a key of the merged table, otherwise null and invalid |
| `DataService.GetField` | src/api/dataService.ts:129-141 | a message is given exactly for an invalid field, whose value is null |
| `DataService.GetFieldAgreesWithGetData` | src/api/dataService.ts:129-141 | `getField` reports the value and type `getData` gives the same single field |
| `DataService.CountsAddUp` | src/api/dataService.ts:70-77 | in `getData` and `getFieldsFreestyle`, valid + hidden + invalid = total = number of tokens |
| `DataService.HelpCountsAddUp` | src/api/dataService.ts:237-285 | with fields, `getHelpData` counts no hidden field, valid + invalid = total, and each token is normal exactly when it is a help key |
| `DataService.KeyedByToken` | src/api/dataService.ts:53-68 | data and `fieldTypes` are keyed by the tokens, each with its own lookup's value and type |
| `DataService.AllKeysByName` | src/api/dataService.ts:28-58 | asking for every key of a category by its own name returns the same data as asking for nothing, all counted valid |
| `DataService.AllKeysData` | src/api/dataService.ts:41-58 | asking for every key of a category by name returns exactly that category's data |
| `DataService.AllKeysValid` | src/api/dataService.ts:55 | asking for every key of a category by name counts every token valid |
| `DataService.NormalCount` | src/api/dataService.ts:55-57 | when every token is normal, the normal count is the number of tokens |
| `DataManager.ParseQuery` | src/terminal/dataManager.ts:161-186 | special exactly when the trimmed, lower-cased line is `help`/`clear`/`fields` or starts with `theme`; a category is never empty; field names are trimmed, non-empty and comma-free |
| `DataManager.ParseFields` | src/terminal/dataManager.ts:462-474 | every field is non-empty, trimmed and comma-free |
| `DataManager.TrimmedPieces` | src/terminal/dataManager.ts:465-467 | `map(trim).filter(Boolean)` keeps only non-empty trimmed pieces |
| `DataManager.CommaListRoundTrip` | src/terminal/dataManager.ts:464-467 | a comma-joined list of trimmed names parses back to the names |
| `DataManager.SpaceListRoundTrip` | src/terminal/dataManager.ts:469-472 | a space-joined list of names parses back to the names |
| `DataManager.CategorySyntax` | src/terminal/dataManager.ts:178-181 | `name[]` that is not a special word becomes the lower-cased `name` as a category |
| `DataManager.BracketsNotSpecial` | src/terminal/dataManager.ts:169-174 | `name[]` is special only when `name` starts with `theme` |
| `DataManager.SpecialAnswer` | src/terminal/dataManager.ts:191-306 | an answer exactly for special commands; each counts no hidden field and one valid or one invalid field; it is an action, the theme list or an unknown theme |
| `DataManager.HandleSpecialCommand` | src/terminal/dataManager.ts:191-306 | null exactly when the lower-cased, trimmed command is not special |
| `DataManager.Normalised` | src/terminal/dataManager.ts:192 | on a trimmed lower-case command the handler answers by its branches directly |
| `DataManager.ThemeLine` | src/terminal/dataManager.ts:259-303 | every `theme...` command goes to the theme branch with `split(' ')[1]` as its argument |
| `DataManager.ThemeCommand` | src/terminal/dataManager.ts:276-302 | `theme <name>` switches to a known theme with valid = 1, and reports an unknown one with invalid = 1 |
| `DataManager.DoubleSpaceListsThemes` | src/terminal/dataManager.ts:260-274 | `theme  <name>` (two spaces) lists the themes, because `split(' ')[1]` is empty |
| `DataManager.GluedNameListsThemes` | src/terminal/dataManager.ts:260-274 | `theme<name>` with no space lists the themes |
| `DataManager.HandleSpecialCommandAsWritten` | src/terminal/dataManager.ts:8-19 | as the module is written, a handler that returns agrees with the intended one and never switches a theme |
| `DataManager.ThemeCommandRaises` | src/terminal/dataManager.ts:259-265 | as written, `theme <name>` raises instead of answering |
| `DataManager.GetFieldsByNames` | src/terminal/dataManager.ts:375-410 | the loop computes `FieldsByNames`: global lookup in the terminal's order with tag `extra` |
| `DataManager.FieldsByNamesCounts` | src/terminal/dataManager.ts:375-410 | valid + hidden + invalid = total; result and `fieldTypes` keyed by exactly the tokens |
| `DataManager.FieldsByNamesSources` | src/terminal/dataManager.ts:390-392 | `sources` has an entry exactly for found tokens, naming `extra` or a category |
| `DataManager.CategoryByName` | src/terminal/dataManager.ts:415-460 | a known category returns all its data with total = valid = key count and the category as source; an unknown one returns counts (0, 0, 0, 1) |
| `DataManager.CategoryAgreesWithApi` | src/terminal/dataManager.ts:415-460 | for a real category the terminal and `getData` with no fields return the same data and counts |
| `DataManager.CategoryKeysMember` | src/terminal/dataManager.ts:87-92 | the collected keys are exactly the fields some listed category holds |
| `DataManager.ListedFieldFound` | src/terminal/dataManager.ts:82-105 | a listed category or extra field that no alias renames is found by the terminal's lookup |
| `DataManager.AddAll` | src/terminal/dataManager.ts:90 | adding keys to a set gives exactly the old members and the keys, still without repetitions |
| `DataManager.GetAvailableFields` | src/terminal/dataManager.ts:82-105 | a strictly sorted list of exactly the category keys, extra keys and canonical alias names; no hidden-overlay key is added |
| `DataManager.SortedKeys` | src/terminal/dataManager.ts:117 | `Object.keys(...).sort()`: strictly sorted and exactly the keys |
| `DataManager.GetFieldsByCategory` | src/terminal/dataManager.ts:110-130 | an entry for each real category holding data, with exactly its keys sorted, and `extra` exactly when extra data is non-empty |
| `TerminalExecutor.HandlerSeesParsedText` | src/terminal/executor.ts:21-25 | the handler's own lower-case and trim see exactly the text `parseQuery` classified |
| `TerminalExecutor.SpecialAlwaysAnswered` | src/terminal/executor.ts:24-29 | the handler answers exactly the lines parsed as special, so the null case never falls through |
| `TerminalExecutor.DispatchBranches` | src/terminal/executor.ts:24-51 | special returns the handler's answer, a category `getCategoryByName`, a non-empty field list `getFieldsByNames`, an empty list the hint |
| `TerminalExecutor.Answered` | src/terminal/executor.ts:21-51 | every non-blank line is answered by the branch its parse selects |
| `TerminalExecutor.NeverFallback` | src/terminal/executor.ts:53-62 | the invalid-format fallback is never reached |
| `TerminalExecutor.BlankHintIff` | src/terminal/executor.ts:9-19 | the "Type help" hint is returned exactly for white-space-only input |
| `TerminalExecutor.NoFieldsHintIff` | src/terminal/executor.ts:37-48 | the no-fields hint is returned exactly when a non-blank line parses to no fields |
| `TerminalExecutor.ShownCountsAddUp` | src/terminal/executor.ts:32-50 | whenever field data is shown, valid + hidden + invalid = total |
| `TerminalExecutor.Propagated` | src/terminal/executor.ts:25 | an exception from the handler propagates out of `executeTerminalQuery` |
| `TerminalExecutor.AsWrittenAgrees` | src/terminal/executor.ts:8-63 | when the written program returns, it returns the intended answer |
| `TerminalExecutor.TerminalThemeRaises` | src/terminal/executor.ts:24-25 | as written, `theme <name>` typed at the terminal raises |
| `TerminalExecutor.RaisedPropagates` | src/terminal/executor.ts:24-29 | a special line whose handler raises makes the terminal raise |
| `Desc.GroupOf` | src/data/desc.ts:172 | the `fieldDesc` group of a category, or none when there is no such group |
| `Desc.GetCategoryFields` | src/data/desc.ts:170-173 | `hidden` and `help` give []; otherwise the group's field names in declaration order, or [] for an unknown category |
| `Desc.DescriptionIn` | src/data/desc.ts:180-181 | a description is found exactly when the group lists the field |
| `Desc.GetFieldDescription` | src/data/desc.ts:175-182 | the description stored for the field in that category's group when it is non-empty; `<field> information` in every other case (`hidden`/`help`, no group, no entry, an empty entry); never empty |
| `Desc.GetAllFields` | src/data/desc.ts:184-202 | the nested `forEach` computes the in-order concatenation of every group's entries, each tagged with its category |
| `Desc.AllFieldsLength` | src/data/desc.ts:184-202 | the length is the sum of the group sizes |
| `Desc.AllFieldsMember` | src/data/desc.ts:184-202 | an entry is listed exactly when some group of that category holds that name and description |
| `Desc.CategoryFieldsListed` | src/data/desc.ts:170-202 | every field `getCategoryFields` names is listed by `getAllFields` under its category |
| `Desc.Matching` | src/data/desc.ts:208-211 | the filter keeps only entries that match; a single entry is kept exactly when it matches |
| `Desc.MatchingAppend` | src/data/desc.ts:208-211 | filtering a concatenation is the concatenation of the filtered parts, so the matches keep their original order |
| `Desc.SearchFields` | src/data/desc.ts:204-212 | every result is a listed field whose name or description contains the term, ignoring case |
| `Desc.SearchFieldsGroups` | src/data/desc.ts:184-212 | the results come group by group in declaration order: a further group's matches follow all earlier ones |
| `Desc.SearchFieldsComplete` | src/data/desc.ts:204-212 | every listed field that matches is in the result |
| `Desc.MatchingAll` | src/data/desc.ts:208-211 | when every entry matches, the filter keeps the whole list in order |
| `Desc.SearchEmptyTerm` | src/data/desc.ts:204-212 | an empty term returns every field |
| `Hidden.Assign` | src/data/hidden.ts:67 | `flatData[key] = value`: the key holds the value, every other key is unchanged, keys stay unique |
| `Hidden.Flatten` | src/data/hidden.ts:62-70 | the nested `forEach` computes `Flattened` |
| `Hidden.FlattenedKeys` | src/data/hidden.ts:62-70 | the flat keys are exactly `category.key` for every entry of every category, without repetition |
| `Hidden.FlatKeysMember` | src/data/hidden.ts:62-70 | a string is a flat key exactly when it is `category.key` for some entry |
| `Hidden.FlattenedStored` | src/data/hidden.ts:3-70 | every flat value is stored in the catalog under that flat key |
| `Hidden.FindIgnoringCase` | src/data/hidden.ts:75-77 | the first key equal to the command ignoring case supplies the value; none when no key is |
| `Hidden.LookupFlat` | src/data/hidden.ts:73-79 | a non-null result is always truthy |
| `Hidden.GetHiddenData` | src/data/hidden.ts:60-80 | the method computes the lookup on the flattened catalog |
| `Hidden.ExactMatch` | src/data/hidden.ts:74 | an exact key with a truthy value returns that value |
| `Hidden.CaseInsensitiveMatch` | src/data/hidden.ts:75-77 | without an exact truthy match, the first case-insensitive key decides the result |
| `Hidden.LookupStored` | src/data/hidden.ts:60-80 | a non-null result is a truthy value stored under a key equal to the command ignoring case |
| `Hidden.BareNameMissing` | src/data/hidden.ts:60-79 | a command without a `.` (a bare field name) returns null |
| `GraphqlStats.SessionStats.constructor` | src/composables/useGraphqlStats.ts:33-40 | the record starts at zero, with empty sets and history |
| `GraphqlStats.SessionStats.TrackGraphQLQuery` | src/composables/useGraphqlStats.ts:45-86 | the new record is `Tracked` of the old one, and consistency is kept |
| `GraphqlStats.SessionStats.CountFields` | src/composables/useGraphqlStats.ts:50-70 | the `for...in` loop computes `Absorb` |
| `GraphqlStats.SessionStats.LogQuery` | src/composables/useGraphqlStats.ts:73-85 | the hidden counter, history entry and cap are applied |
| `GraphqlStats.SessionStats.ResetGraphQLStats` | src/composables/useGraphqlStats.ts:138-148 | the record returns to its initial state |
| `GraphqlStats.Tracked` | src/composables/useGraphqlStats.ts:45-86 | totalQueries grows by exactly 1; hiddenFieldsFound is the number of hidden fields found; the newest entry records the query and the sizes at that moment |
| `GraphqlStats.Absorb` | src/composables/useGraphqlStats.ts:52-69 | the loop leaves the query counter, hidden counter and history alone |
| `GraphqlStats.AbsorbKeeps` | src/composables/useGraphqlStats.ts:52-69 | both sets stay sets and only grow; the found hidden fields stay among the discovered ones |
| `GraphqlStats.AbsorbDiscovers` | src/composables/useGraphqlStats.ts:57-62 | a field is discovered exactly when it was before or the response reports it normal or hidden |
| `GraphqlStats.AbsorbFinds` | src/composables/useGraphqlStats.ts:63-67 | a field is found hidden exactly when it was before or the response reports it hidden |
| `GraphqlStats.AbsorbInvalid` | src/composables/useGraphqlStats.ts:55-56 | the invalid counter grows by the number of invalid entries, without de-duplication |
| `GraphqlStats.TrackedFields` | src/composables/useGraphqlStats.ts:50-73 | after a call the discovered set, the hidden set and the invalid counter are exactly the old ones plus what the response reports |
| `GraphqlStats.WithoutFieldTypes` | src/composables/useGraphqlStats.ts:50 | without `metadata.fieldTypes` only totalQueries and the history change |
| `GraphqlStats.TrackedConsistent` | src/composables/useGraphqlStats.ts:45-86 | the sets stay sets, found hidden fields stay discovered, hiddenFieldsFound = their number, and the history stays within 50 |
| `GraphqlStats.Capped` | src/composables/useGraphqlStats.ts:83-85 | `slice(-50)`: at most 50 entries, and they are the newest ones |
| `GraphqlStats.TrackedHistory` | src/composables/useGraphqlStats.ts:75-85 | the history is the old one plus the new entry, with the oldest entries dropped beyond 50 |
| `GraphqlStats.TrackedMode` | src/composables/useGraphqlStats.ts:48 | the new entry's mode is `freestyle` exactly when the API executor answers the query in freestyle mode |
| `GraphqlStats.Reversed` | src/composables/useGraphqlStats.ts:135 | `slice().reverse()`: the same entries, newest first |
| `GraphqlStats.Recent` | src/composables/useGraphqlStats.ts:129 | `slice(-5).reverse()`: the last five entries at most, newest first |
| `GraphqlStats.Latest` | src/composables/useGraphqlStats.ts:130 | the last entry, absent exactly when the history is empty |
| `GraphqlStats.RecentIsHistoryHead` | src/composables/useGraphqlStats.ts:129-136 | the recent queries begin the full history view, and the latest query is the first of them |
| `GraphqlStats.LatestIsTracked` | src/composables/useGraphqlStats.ts:75-81 | after a call the latest query is that call's, with totalFieldsRequested = unique fields + invalid attempts |
| `GraphqlStats.AchievementsKept` | src/composables/useGraphqlStats.ts:150-157 | an achievement once earned stays earned after any further query |
| `GraphqlStats.AchievementLadders` | src/composables/useGraphqlStats.ts:150-157 | explorer implies firstQuery and hiddenMaster implies detective; a fresh session has none |
| `GraphqlStats.InitialView` | src/composables/useGraphqlStats.ts:138-146 | the initial and reset record is consistent and every view of it is empty |
| `CategoryInfo.Categories` | src/composables/useCategoryInfo.ts:53-75 | one record per real category in the order about, education, experience, projects, skills, each describing its category |
| `CategoryInfo.CategoryInfoOf` | src/composables/useCategoryInfo.ts:54-73 | the record of one category: capitalised display name, descriptions, fields, defaults and example query |
| `CategoryInfo.FieldDescriptions` | src/composables/useCategoryInfo.ts:59-62 | `fieldDescriptions` has exactly the category's fields as keys, each with its description |
| `CategoryInfo.CategoryRecordSound` | src/composables/useCategoryInfo.ts:54-73 | every field description is non-empty, and the example query asks the API for the category's default fields |
| `CategoryInfo.FreestyleInfoOf` | src/composables/useCategoryInfo.ts:80-121 | the freestyle record: its description, defaults, example query and every available field |
| `CategoryInfo.PushCategory` | src/composables/useCategoryInfo.ts:90-100 | the inner `forEach` appends the category's fields in order |
| `CategoryInfo.PushExtra` | src/composables/useCategoryInfo.ts:103-111 | the extra `forEach` appends the extra fields in order |
| `CategoryInfo.AvailableFieldIff` | src/composables/useCategoryInfo.ts:89-111 | an entry is available exactly when it is a regular or extra field, with `isDefault` iff the name is a freestyle default |
| `CategoryInfo.AvailableFromIff` | src/composables/useCategoryInfo.ts:89-100 | an entry comes from the category loop exactly when its category is listed and the category lists it |
| `CategoryInfo.CategoryAvailableIff` | src/composables/useCategoryInfo.ts:91-99 | a category's entry has that category, one of its field names with its description, and the default flag |
| `CategoryInfo.ExtraAvailableIff` | src/composables/useCategoryInfo.ts:103-111 | an extra entry is an extra field with its description and the default flag |
| `CategoryInfo.CategoryAvailable` | src/composables/useCategoryInfo.ts:91-99 | one available entry per field of the category |
| `CategoryInfo.ExtraAvailable` | src/composables/useCategoryInfo.ts:103-111 | one available entry per extra field |
| `CategoryInfo.FreestyleRecordExample` | src/composables/useCategoryInfo.ts:113-120 | the freestyle record's example is a freestyle query the API answers with the default fields |
| `CategoryInfo.GenerateExampleQueryParses` | src/composables/useCategoryInfo.ts:126-133 | the example for a real category is a scoped query the API answers with the selection, or the defaults when it is empty |
| `CategoryInfo.GenerateFreestyleQueryParses` | src/composables/useCategoryInfo.ts:138-144 | the freestyle example is a freestyle query the API answers with the selection, or the defaults when it is empty |
| `CategoryInfo.CategoryExampleParses` | src/composables/useCategoryInfo.ts:126-133 | the scoped layout `query {\n  cat {\n    f1\n  }\n}` reads back as that category and those fields |
| `CategoryInfo.FreestyleExampleParses` | src/composables/useCategoryInfo.ts:138-144 | the layout `query {\n  f1\n  f2\n}` is freestyle and reads back as those fields |
| `CategoryInfo.RealCategoryServed` | src/composables/useCategoryInfo.ts:48 | every real category is a `\w+` word the API executor accepts |
| `QueryBuilder.QueryBuilder.constructor` | src/utils/queryBuilder.ts:26-33 | nothing selected, no field used, every statistic zero |
| `QueryBuilder.QueryBuilder.ToggleField` | src/utils/queryBuilder.ts:87-95 | the selection becomes `Toggled` of the old one; the statistics are unchanged |
| `QueryBuilder.QueryBuilder.RecordQuery` | src/utils/queryBuilder.ts:106-115 | totalQueries + 1, totalTime + executionTime, the last time and size stored, and every selected field added to `fieldsUsed` |
| `QueryBuilder.ToggledMembers` | src/utils/queryBuilder.ts:87-95 | toggling removes the path when selected and adds it otherwise; every other path keeps its state |
| `QueryBuilder.ToggleTwice` | src/utils/queryBuilder.ts:87-95 | toggling twice restores the selected set and the generated query |
| `QueryBuilder.Removed` | src/utils/queryBuilder.ts:90 | `Set.delete`: exactly the other members remain, still without repetitions |
| `QueryBuilder.QueryTextEmptyIff` | src/utils/queryBuilder.ts:97-98 | `generateQuery` returns '' exactly when nothing is selected |
| `QueryBuilder.QueryTextForm` | src/utils/queryBuilder.ts:97-104 | the query is `query {`, then the sorted paths one per line indented by two spaces, then `}` |
| `QueryBuilder.SameSelectionSameQuery` | src/utils/queryBuilder.ts:99-100 | the generated query depends only on which paths are selected, not on the order of selection |
| `QueryBuilder.QueryTextParses` | src/utils/queryBuilder.ts:97-104 | the generated query is a freestyle query the API answers with the sorted paths |
| `QueryBuilder.AddEachMembers` | src/utils/queryBuilder.ts:112-114 | after `recordQuery`, `fieldsUsed` is exactly the old fields and the selected ones |
| `QueryBuilder.AddEach` | src/utils/queryBuilder.ts:112-114 | `fieldsUsed` stays a set |
| `QueryBuilder.GetAllPaths` | src/utils/queryBuilder.ts:133-141 | the method computes the preorder listing of the node's subtree |
| `QueryBuilder.PreorderShape` | src/utils/queryBuilder.ts:133-141 | the listing starts with the node's own path and has one path per node of the subtree |
| `QueryBuilder.GetFieldNodes` | src/utils/queryBuilder.ts:36-69 | one node per entry of the record |
| `QueryBuilder.FieldNodeShape` | src/utils/queryBuilder.ts:36-69 | a node carries its key, the dotted path, its type, `isSelected` iff its path is selected; string entries are never hidden |
| `QueryBuilder.ChildPath` | src/utils/queryBuilder.ts:38-39 | a child's path is the parent's path, `.`, and the child's key |
| `QueryBuilder.FieldTypeNamed` | src/utils/queryBuilder.ts:71-85 | a type is one of the five basic names or the one the entry declares |
| `QueryBuilder.ChildrenTyped` | src/utils/queryBuilder.ts:74-79 | an object with a truthy `fields` record and no declared type is typed `object` |
| `QueryBuilder.Matching` | src/utils/queryBuilder.ts:121-124 | the filter keeps no more paths than it is given; a single path is kept exactly when it is suggestible |
| `QueryBuilder.MatchingAppend` | src/utils/queryBuilder.ts:121-124 | filtering a concatenation is the concatenation of the filtered parts, so the kept paths stay in tree order |
| `QueryBuilder.MatchingIff` | src/utils/queryBuilder.ts:121-124 | the filter keeps exactly the paths containing the query ignoring case and not ending in `.isHidden` |
| `QueryBuilder.SuggestionsSound` | src/utils/queryBuilder.ts:117-130 | no suggestions for an empty query; otherwise exactly the first min(5, n) of the n filtered paths, in tree order (`slice(0, 5)`); each one a matching path of the tree; when fewer than 5 are given, every matching path is given |

## Specification functions

These specification functions have no contract of their own. Their
properties are stated by the members of the "## Model" rows named here:

| function | source | stated by |
|---|---|---|
| `TerminalExecutor.ExecuteTerminalQuery` | src/terminal/executor.ts:8-63 | `TerminalExecutor.HandlerSeesParsedText`, `TerminalExecutor.DispatchBranches`, `TerminalExecutor.Answered`, `TerminalExecutor.NeverFallback`, `TerminalExecutor.BlankHintIff`, `TerminalExecutor.NoFieldsHintIff`, `TerminalExecutor.ShownCountsAddUp` |
| `CategoryInfo.GenerateExampleQuery` | src/composables/useCategoryInfo.ts:126-133 | `CategoryInfo.GenerateExampleQueryParses` |
| `CategoryInfo.GenerateFreestyleQuery` | src/composables/useCategoryInfo.ts:138-144 | `CategoryInfo.GenerateFreestyleQueryParses`, `CategoryInfo.FreestyleRecordExample` |
| `QueryBuilder.GetFieldType` | src/utils/queryBuilder.ts:71-85 | `QueryBuilder.FieldTypeNamed`, `QueryBuilder.ChildrenTyped` |
| `QueryBuilder.GetFieldSuggestions` | src/utils/queryBuilder.ts:117-130 | `QueryBuilder.SuggestionsSound`, `QueryBuilder.MatchingIff`, `QueryBuilder.MatchingAppend` |
| `QueryBuilder.QueryText` | src/utils/queryBuilder.ts:97-104 | `QueryBuilder.QueryTextEmptyIff`, `QueryBuilder.QueryTextForm`, `QueryBuilder.SameSelectionSameQuery`, `QueryBuilder.QueryTextParses`, `QueryBuilder.ToggleTwice` |
| `Catalog.Locate` | src/api/dataService.ts:157-198 | `Catalog.FindFieldAnywhere`, `Catalog.LocatePrecedence`, `Catalog.LocateSource`, `Catalog.ScopedImpliesGlobal`, `Catalog.OrdersDisagree`, `Catalog.OrdersAgree` |
| `DataService.HelpData` | src/api/dataService.ts:237-285 | `DataService.GetHelpData`, `DataService.HelpClassify`, `DataService.HelpCountsAddUp` |
| `DataManager.FieldsByNames` | src/terminal/dataManager.ts:375-410 | `DataManager.GetFieldsByNames`, `DataManager.FieldsByNamesCounts`, `DataManager.FieldsByNamesSources` |
| `GraphqlStats.View` | src/composables/useGraphqlStats.ts:129-157 | `GraphqlStats.RecentIsHistoryHead`, `GraphqlStats.LatestIsTracked`, `GraphqlStats.TrackedMode`, `GraphqlStats.InitialView` |
| `GraphqlStats.QueryHistory` | src/composables/useGraphqlStats.ts:135 | `GraphqlStats.Reversed`, `GraphqlStats.InitialView` |
| `GraphqlStats.AchievementsOf` | src/composables/useGraphqlStats.ts:150-157 | `GraphqlStats.AchievementsKept`, `GraphqlStats.AchievementLadders` |

## Left out

- Message texts, emoji and the help-text layout are not modelled. Messages are the `Notice` and `QueryError` constructors, by what they say. This covers the help branch's message at src/terminal/dataManager.ts:206-245 and the unused private `getHelpData` at src/terminal/dataManager.ts:311-370.
- `getAvailableCommands`, `getQuickActions` and `getAvailableCategories` are not modelled as operations. They are constant tables; the category list is the constant `Catalog.TerminalOrder`.
- The `async`/`await` wrappers are not modelled: nothing in the core waits.
- The `try`/`catch` blocks of the API executor are not modelled, because no data-service call can throw in the model.
- `console.log` and `console.error` diagnostics are not modelled.
- The static catalogs, the alias table (`src/data/similarFields`) and the description tables are parameters, not transcribed values. The theme names are the constant `DataManager.AvailableThemes`.
- A category's data is a map from field name to value. JavaScript arrays as category data and the `in` operator on arrays are not modelled.
- Properties inherited from `Object.prototype` are not modelled: an object holds only its own keys. In the source, `getHiddenData`'s `flatData[command]` lookup (src/data/hidden.ts:74) returns the inherited function for `toString`, `constructor` and the like, where the model returns null. The `field in ...` tests of `analyzeField`, `findFieldAnywhere`, `getHelpData` and `getFieldsByNames` (src/api/dataService.ts:161-216, 261-272; src/terminal/dataManager.ts:493-516) are true for such names, where the model classifies them by the object's own keys only.
- `toLowerCase` and `toUpperCase` change ASCII letters only. Other Unicode case mappings are not modelled.
- Numbers in the catalogs and the query builder's statistics are unbounded integers. Floating point is not modelled.
- Timestamps, `sessionStartTime`, `sessionMinutes` and the `persistent` achievement depend on the clock and are not modelled.
- `extractAllFieldNames` is not modelled: it is dead code, never returned from the composable.
- `GraphqlStats.HistoryEntry` does not store the mode. It is derived from the query by `GraphqlStats.Mode`, exactly as `isFreestyleQuery` computes it.
- The response given to `trackGraphQLQuery` is reduced to its `metadata.fieldTypes` entries, in the order `for...in` visits them.
- `QueryBuilder.QueryBuilder.RecordQuery` takes the response size as an argument. The default value 0 is the caller passing 0.
- The `try`/`catch` in `getFieldSuggestions` is not modelled, because nothing in the model throws. The description record is a parameter.
- In `getFieldNodes`, a node without a `fields` record and a node with an empty one both have no children. The source tells them apart by an absent `children` property.
- Vue reactivity (`ref`, `reactive`, `computed`) is not modelled.
- `Object.entries` is taken in insertion order. JavaScript lists integer-like keys first, and that is not modelled.
- `executeQuery`'s `typeof query !== 'string'` test is modelled as an absent argument (`None`).
- `DataManager.AddAll` iterates the keys of a set in an unspecified order. The order is not observable, because the result is sorted.
- A category that appears twice in `fieldDesc` is not modelled: the first group is used.
- `DataService.Data` and `DataService.FieldsFreestyle` state only the mode in their own contracts. Their counts, keys and values are stated by `DataService.CountsAddUp`, `DataService.KeyedByToken`, `FieldTally.TallyCounts`, `FieldTally.TallyValues` and `FieldTally.HelpToken`.
- `CategoryInfo.CategoryAvailable` and `CategoryInfo.ExtraAvailable` state only their lengths. Their contents are stated by `CategoryInfo.CategoryAvailableIff` and `CategoryInfo.ExtraAvailableIff`.
- `QueryBuilder.GetFieldNodes` states only the node count. Each node's contents are stated by `QueryBuilder.FieldNodeShape` and `QueryBuilder.ChildPath`.
- Strings are sequences of Unicode code points, not of UTF-16 code units. `StringOrder.Below` compares them in code-unit order (`StringOrder.UnitRankOrder`), but `length`, indexing and `slice` count code points, so they differ from JavaScript on characters above U+FFFF.
- `src/terminal/config.ts` is not part of this model. The theme names are a constant here.

## Findings

| source | as written | input that shows it | evidently intended | confidence | as-written member | corrected member |
|---|---|---|---|---|---|---|
| src/terminal/dataManager.ts:8-19 | `AVAILABLE_THEMES` and `USAGE_EXAMPLES` are imported with `import type`, which is erased from the emitted JavaScript. Every read of them in the theme branch (lines 265, 276, 293) raises a `ReferenceError`, so the terminal raises for every `theme` command and never switches theme. | `theme matrix` typed at the terminal | a value import: `theme <name>` switches to a known theme and reports an unknown one; `theme` lists the themes | not executed | `DataManager.ThemeCommandRaises` | `DataManager.ThemeCommand` |
