# SnapTest snapshot matching, modelled in Dafny

SnapTest compares a test's actual value with a snapshot stored in a file. If they match, the test passes. The snapshot file can be created from the actual value when it is missing, or refreshed on request. On a mismatch, the actual value is written to a "mismatched actual" file beside the snapshot, so that a developer can review it.

The repository holds three generations of this engine, and the model covers all three:

- **The JToken code.** `Snapshot.CompareTo` first reads the snapshot, or one group of a grouped snapshot file. It then filters the actual value by excluded JSONPaths and a select path, and compares the two through a comparer. Finally it writes the files the settings call for, and tells the settings' message writer what it wrote. A tip is shown only once per process.
- **The SnapshotValue code.** The same engine over a `SnapshotValue` wrapper, with a list of included paths. `CompareTo` in the model is this generation.
- **The middleware code.** A chain of stages built by `SnapshotBuilder`:
  - file-storage reading;
  - JSON serialization;
  - a case-insensitive string comparator;
  - file-storage writing;
  - optional function stages.

  The chain runs over a `SnapshotContext` that carries TestName, Actual and Expected.

Around these sit the settings object (its validated `SnapshotGroup` setter, the sanitised file paths, `SnapshotField`), the settings builder, the two built-in comparers, and the options objects of the middleware stages.

What the model assumes:

- **Values.** JSON values are a datatype. Objects keep their member order, and `WellFormed` states Newtonsoft's unique-key invariant.
- **.NET objects.** The objects handed in as actual values are a `Host` datatype.
- **JSONPath.** JSONPath texts are parsed into a subset of child segments: names, indexes, and quoted-name lists. Evaluation produces node lists that carry locations.
- **Exclusion.** Removing excluded paths is pruning at the locations the paths resolved to in the untouched tree.
- **Files and messages.** The file system is a map from path to text. A message writer is the sequence of notices it received. The three once-per-process tip flags are an object.
- **Parsing.** Parsing snapshot text as JSON is a parameter `parse`. The engine lemmas that need it state what they assume of it.

Methods change the `FileStore`, `TipFlags`, `MessageLog`, settings, context and pipeline objects. Each one is proved to change them exactly as a specification function on values says. The lemmas are proved about those functions.

## Where the model follows the code rather than the tests

- **Writing stage, missing snapshot.** Test lines 30-32 of `src/SnapTest.Tests/Middleware/FileStorageWritingMiddleware.cs` set CreateMissingSnapshots and ForceSnapshotRefresh to false, with no snapshot file, and expect no message. The code (`src/SnapTest/Middleware/FileStorageWritingMiddleware.cs` lines 23-30) writes the mismatch file and sends a message. The model does what the code does (`MiddlewareProperties.WritingDecisionTable`).
- **Writing stage, non-string Actual.** When the writing stage must write a value that is not a string, it throws NotImplementedException. The model returns that error as `NonStringPayload`, and deletes the old mismatch file first, as the code does.

## Model

| member | source | states |
|---|---|---|
| Text.Trim | src/SnapTest/SnapshotSettings.cs:51 | the result is a slice of the input, with white space at neither end, and all of the input outside it is white space |
| Text.TrimIdempotent | src/SnapTest/SnapshotSettings.cs:51 | trimming twice is trimming once |
| Text.IntToString | src/SnapTest/Middleware/StringComparatorMiddleware.cs:14 | a negative number is '-' followed by the decimal text of its magnitude; any other number is its decimal text, as NatToString gives it |
| Text.NatToString | src/SnapTest/Middleware/StringComparatorMiddleware.cs:14 | a non-empty run of decimal digits with no leading zero, denoting the number |
| Text.DigitsValueOfNatToString | src/SnapTest/Middleware/StringComparatorMiddleware.cs:14 | the decimal text of a number denotes that number |
| Text.ReplaceAllProperties | src/SnapTest/SnapshotSettings.cs:191 | the replacement keeps the length, leaves no bad character, changes only bad characters, and a second pass changes nothing |
| Text.ReplaceCharTwice | src/SnapTest/Middleware/FileStorageOptions.cs:20 | two chained character replacements are one replacement of both characters |
| Text.PathCombine | src/SnapTest/SnapshotSettings.cs:191 | an empty name gives the directory; else an empty directory or a rooted name gives the name; else a directory ending in '/' is followed by the name; else directory, '/', name. The directory is always a prefix or the name a suffix |
| Text.TrimNewLine | src/SnapTest/Middleware/FileStorageReadingMiddleware.cs:21-25 | text ending in NewLine loses exactly that NewLine; any other text is unchanged |
| Text.TrimNewLineWritten | src/SnapTest/Snapshot.FileIO.cs:25 | a file written as text plus NewLine reads back as the text |
| JsonValue.IndexOfKey | src/SnapTest/SnapshotValue.cs:101 | -1 exactly when the key is absent; otherwise the position of the first member with that key |
| JsonValue.PropertyValue | src/SnapTest/SnapshotValue.cs:101 | present exactly for an object that has the key; then it is that member's value |
| JsonValue.DeepEqualsReflexive | src/SnapTest/SnapshotValue.cs:89 | every well-formed value is deeply equal to itself |
| JsonValue.DeepEqualsSymmetric | src/SnapTest/SnapshotValue.cs:89 | deep equality of well-formed values is symmetric |
| JsonValue.DeepEqualsTransitive | src/SnapTest/SnapshotValue.cs:89 | deep equality of well-formed values is transitive |
| JsonValue.MemberOrderIrrelevant | src/SnapTest/SnapshotValue.cs:89 | an object equals every reordering of its members |
| JsonValue.AddMember | src/SnapTest/SnapshotValue.cs:96 | a non-object or an existing key is an error; otherwise the members gain the new one at the end |
| JsonValue.ReplaceMember | src/SnapTest/SnapshotValue.cs:105 | same keys in the same order; the named member's value replaced, every other kept |
| OrdinalOrder.LessIrreflexive | src/SnapTest/SnapshotValue.cs:145 | no name sorts before itself |
| OrdinalOrder.LessTransitive | src/SnapTest/SnapshotValue.cs:145 | ordinal order is transitive |
| OrdinalOrder.LessTotal | src/SnapTest/SnapshotValue.cs:145 | of two different names one sorts first |
| OrdinalOrder.LessAsymmetric | src/SnapTest/SnapshotValue.cs:145 | two names never sort before each other |
| OrdinalOrder.Insert | src/SnapTest/SnapshotValue.cs:145 | inserting keeps the same multiset of entries |
| OrdinalOrder.SortByName | src/SnapTest/SnapshotValue.cs:145 | the result is sorted by name and is a permutation of the input |
| OrdinalOrder.SortedPermutationsEqual | src/SnapTest/SnapshotValue.cs:145 | two sorted permutations of entries with distinct names are identical |
| OrdinalOrder.SortOrderIndependent | src/SnapTest/SnapshotValue.cs:145 | sorting forgets declaration order: permutations sort to the same sequence |
| HostValues.FromObject | src/SnapTest/SnapshotValue.cs:82 | a non-null object never becomes JSON null; strings and Guids become strings, lists arrays, dictionaries and objects JObjects; a dictionary keeps its entry names in order; an object's properties come sorted by name |
| HostValues.ToToken | src/SnapTest/Middleware/JsonSerializerMiddlware.cs:41 | a non-null object never becomes JSON null; strings and Guids become strings, lists arrays, dictionaries and objects JObjects; entry and property names stay in declaration order |
| HostValues.RecordKeysAreNames | src/SnapTest/SnapshotValue.cs:142-146 | sorting the properties neither adds nor drops one: the keys are exactly the property names |
| HostValues.FromObjectWellFormed | src/SnapTest/SnapshotValue.cs:82 | converting a well-formed object gives a token whose objects have distinct keys |
| HostValues.FromObjectOrderIndependent | src/SnapTest/SnapshotValue.cs:142-146 | the ordered contract resolver makes the token independent of property declaration order |
| HostValues.FromObjectDeepEqualsToToken | src/SnapTest/Snapshot.Json.cs:87-91 | the ordered conversion and the plain JToken.FromObject are deeply equal; in the source only when no Guid is held (see Left out) |
| HostValues.DictDeepEqualsToToken | src/SnapTest/Snapshot.Json.cs:87-91 | for a dictionary, the ordered conversion and the plain JToken.FromObject are deeply equal; in the source only when no Guid is held (see Left out) |
| HostValues.RecordDeepEqualsToToken | src/SnapTest/Snapshot.Json.cs:87-91 | for an object with properties, the ordered conversion and the plain JToken.FromObject are deeply equal; in the source only when no Guid is held (see Left out) |
| JsonPath.SelectTokens | src/SnapTest/SnapshotValue.cs:123 | an error exactly when the text is outside the parsed subset; otherwise the evaluation of the parsed path from the root |
| JsonPath.SelectTokensSound | src/SnapTest/SnapshotValue.cs:111 | every match is the tree's node at its location, one step per segment; the root matches only for the empty path |
| JsonPath.UnionOfSelectors | src/SnapTest/SnapshotValue.cs:123 | a bracket list selects its selectors' matches one after another, in the written order |
| JsonPath.EvaluateNodesConcat | src/SnapTest/SnapshotValue.cs:123 | a path applied to a node list is applied to each node in turn |
| JsonPath.EvaluatePathConcat | src/SnapTest/SnapshotValue.cs:123 | a longer path evaluates as its prefix, then the rest |
| JsonPath.NameSelects | src/SnapTest/SnapshotValue.cs:123 | a single name selects that member, or nothing |
| JsonPath.IndexSelects | src/SnapTest/SnapshotValue.cs:123 | a single index selects that element, or nothing past the end or on a non-array |
| JsonPathSyntax.ReadQuoted | src/SnapTest/SnapshotValue.cs:123 | a quoted name is read up to its unescaped closing quote; the rest is a suffix of the input |
| JsonPathSyntax.ParseNameList | src/SnapTest/SnapshotValue.cs:123 | a quoted-name list yields only name selectors, and a suffix of the text |
| JsonPathSyntax.ParseIndexList | src/SnapTest/SnapshotValue.cs:123 | an index list yields only index selectors within Int32, and a suffix of the text |
| JsonPathSyntax.ParseBracket | src/SnapTest/SnapshotValue.cs:123 | a bracket holds a non-empty list of one kind of selector |
| JsonPathSyntax.NameListRoundTrip | src/SnapTest/SnapshotValue.cs:123 | printed quoted-name lists read back as themselves |
| JsonPathSyntax.IndexListRoundTrip | src/SnapTest/SnapshotValue.cs:123 | printed index lists read back as themselves |
| JsonPathSyntax.BracketRoundTrip | src/SnapTest/SnapshotValue.cs:123 | a printed bracket reads back as its segment |
| JsonPathSyntax.SegmentsRoundTrip | src/SnapTest/SnapshotValue.cs:123 | printed segments read back as themselves |
| JsonPathSyntax.PathRoundTrip | src/SnapTest/SnapshotValue.cs:123 | every printable path reads back as itself |
| JsonPathSyntax.DottedRoundTrip | src/SnapTest/SnapshotValue.cs:123 | `a.b.c`, followed by any run of spaces, reads as one name segment per name |
| JsonPathSyntax.SpacesEndPath | src/SnapTest/SnapshotValue.cs:123 | a pending name followed only by spaces ends the path with that name |
| JsonPathSyntax.SpacesAfterBracket | src/SnapTest/SnapshotValue.cs:123 | spaces after a closing bracket end the path |
| JsonPathSyntax.BracketThenSpaces | src/SnapTest/SnapshotValue.cs:123 | a bracket selector followed by spaces reads as that one segment |
| JsonPathSyntax.SpacesOnlyRoot | src/SnapTest/SnapshotValue.cs:123 | a text of spaces only reads as the root |
| JsonPathSyntax.LeadingSpacesKept | src/SnapTest/SnapshotValue.cs:123 | leading spaces are part of the first member name: ` Name` is the member ` Name` |
| JsonPathSyntax.SpacedDollarRejected | src/SnapTest/SnapshotValue.cs:123 | spaces followed by a final `$` are an error |
| JsonPathSyntax.SpacedRootDropped | src/SnapTest/SnapshotValue.cs:123 | spaces before `$.` or `$[` are dropped with the `$` |
| JsonPathSyntax.SpacesBeforeBracket | src/SnapTest/SnapshotValue.cs:123 | spaces before a bracket are a member name of their own, selected before the bracket |
| JsonPathSyntax.NameListSkipsOpener | src/SnapTest/SnapshotValue.cs:123 | after a comma in a quoted-name list, the next character is skipped whatever it is: `'a',xb']` reads as `a` and `b` |
| JsonPathSyntax.TrailingDotRejected | src/SnapTest/SnapshotValue.cs:123 | a name followed by a lone dot is rejected |
| JsonPathSyntax.ScanRejected | src/SnapTest/SnapshotValue.cs:123 | the recursive-descent `..` is rejected |
| JsonEdit.PruneNothing | src/SnapTest/SnapshotValue.cs:120 | removing no location leaves the tree unchanged |
| JsonEdit.PruneWellFormed | src/SnapTest/SnapshotValue.cs:120 | removal keeps every object's keys distinct |
| JsonEdit.MembersAfterPrune | src/SnapTest/SnapshotValue.cs:120 | a targeted member disappears with its key; every other member stays, pruned below |
| JsonEdit.MatchedLocs | src/SnapTest/SnapshotValue.cs:120 | exactly the non-root match locations |
| JsonEdit.DetachRemovesMatched | src/SnapTest/Snapshot.Json.cs:60-65 | the corrected detach loop removes exactly the matched locations, whatever their order and repetitions |
| JsonEdit.DetachAsWrittenAgrees | src/SnapTest/SnapshotValue.cs:120 | when the loop as written finishes, it removes what the corrected loop removes |
| JsonEdit.RepeatedMemberExclusionFails | src/SnapTest/SnapshotValue.cs:120 | excluding `Name` twice makes the loop as written fail on the detached member |
| JsonEdit.DetachAsWrittenFails | src/SnapTest/SnapshotValue.cs:120 | the loop as written fails, with the missing-parent error, exactly when some member location is matched a second time |
| JsonEdit.RepeatedElementExclusionSkipped | src/SnapTest/SnapshotValue.cs:120 | excluding `Trees[0]` twice removes the element once, with no error |
| PathFilter.RootExclusionError | src/SnapTest/SnapshotValue.cs:111-112 | each generation's root-exclusion exception, by type and message |
| PathFilter.MatchesRootIffEmptyPath | src/SnapTest/SnapshotValue.cs:111 | a lookup matches the root exactly when the path has no segments |
| PathFilter.LookupResolvable | src/SnapTest/SnapshotValue.cs:110-114 | a path resolves exactly when it parses and is not the root; otherwise it raises its error |
| PathFilter.ResolveFirstOk | src/SnapTest/SnapshotValue.cs:108-117 | resolving the first n paths succeeds exactly when each of them resolves |
| PathFilter.ResolveFirstError | src/SnapTest/SnapshotValue.cs:108-117 | a failed resolution carries the error of the first failing path |
| PathFilter.ResolveExclusionsOk | src/SnapTest/SnapshotValue.cs:108-117 | resolution succeeds exactly when every path is excludable |
| PathFilter.ResolveExclusionsFirstError | src/SnapTest/SnapshotValue.cs:108-117 | the error is that of the first non-excludable path |
| PathFilter.LookupBelowRoot | src/SnapTest/SnapshotValue.cs:110-114 | every match of a resolvable path is a node strictly below the root, found at the location it records |
| PathFilter.ResolveFirstSound | src/SnapTest/SnapshotValue.cs:108-117 | every match a successful resolution collects is a node strictly below the root, found at the location it records |
| PathFilter.ResolveExclusionsSound | src/SnapTest/SnapshotValue.cs:110 | every resolved match is a node of the tree below its root |
| PathFilter.GenerationsAgree | src/SnapTest/Middleware/JsonSerializerMiddlware.cs:49-65 | the three copies of the exclusion code fail together and agree on their matches; they differ only in the root error |
| PathFilter.RemoveMatches | src/SnapTest/SnapshotValue.cs:107-121 | the resolve-then-detach method, with the corrected detach loop, returns the pruned tree, or the first path's error with nothing removed |
| PathFilter.ExcludePathsAsWritten | src/SnapTest/SnapshotValue.cs:107-121 | the removal as written in all three copies: the resolution's error, else a missing-parent failure exactly when a member is matched twice, else the corrected result |
| PathFilter.RepeatedPathFails | src/SnapTest/Middleware/JsonSerializerMiddlware.cs:51-64 | a path matching a member, excluded twice, fails as written; the corrected exclusion removes its matches once |
| PathFilter.ResolveMatches | src/SnapTest/Middleware/JsonSerializerMiddlware.cs:51-58 | the resolution loop computes the specification's resolution |
| PathFilter.DetachAll | src/SnapTest/Middleware/JsonSerializerMiddlware.cs:60-64 | the corrected detach loop (see Findings): exactly the matched non-root locations are removed, each once |
| PathFilter.ResolveStopsAt | src/SnapTest/SnapshotValue.cs:108-117 | once a prefix of the paths fails, the whole list fails with the same error |
| PathFilter.ResolveStopsAtRoot | src/SnapTest/SnapshotValue.cs:111-112 | the first path matching the root stops resolution with the root error |
| PathFilter.SelectAllConcat | src/SnapTest/Snapshot.SnapshotValue.cs:24 | selecting by `ps + qs` is selecting by `ps`, then by `qs` |
| PathFilter.SelectAllOk | src/SnapTest/Snapshot.SnapshotValue.cs:24 | selection fails exactly when some path's lookup fails |
| PathFilter.SelectIncludedOk | src/SnapTest/Snapshot.SnapshotValue.cs:24 | in a tree, selection fails exactly when some include path does not parse |
| PathFilter.SelectIncludedOne | src/SnapTest/Snapshot.SnapshotValue.cs:24 | one include path selects that path's matches |
| PathFilter.Unwrap | src/SnapTest/Snapshot.SnapshotValue.cs:26-30 | no match is null; one match is itself; several are an array in match order |
| SnapshotValues.SnapshotValue.constructor | src/SnapTest/SnapshotValue.cs:42-48 | the wrapper holds the given token |
| SnapshotValues.SnapshotValue.Serialize | src/SnapTest/SnapshotValue.cs:70 | always JSON: a string is quoted |
| SnapshotValues.SnapshotValue.ToString | src/SnapTest/SnapshotValue.cs:72 | null gives the empty text; a Boolean True or False; a number its decimal text; a string its bare text; an array or object its JSON |
| SnapshotValues.ScalarToStringIsHostText | src/SnapTest/SnapshotValue.cs:72 | for a Boolean, integer, string or Guid, the wrapper's text is the text of the original .NET object |
| Filtering.SerializeIsToStringForStrings | src/SnapTest/Snapshot.SnapshotValue.cs:10-13 | a string value is written as its ToString text; any other value as its JSON |
| SnapshotValues.SnapshotValue.PropertyValue | src/SnapTest/SnapshotValue.cs:99-103 | present exactly for an object with that key; then that member's value |
| SnapshotValues.SnapshotValue.SelectTokens | src/SnapTest/SnapshotValue.cs:123 | null means `$`; an error exactly when the path does not parse; otherwise the match values |
| SnapshotValues.SnapshotValue.Add | src/SnapTest/SnapshotValue.cs:91-97 | a non-object refuses; an existing key is JObject's error with the token unchanged; otherwise the member is appended |
| SnapshotValues.SnapshotValue.ReplaceProperty | src/SnapTest/SnapshotValue.cs:105 | the named member's value is replaced in place |
| SnapshotValues.SnapshotValue.RemovePaths | src/SnapTest/SnapshotValue.cs:107-121 | the token becomes the pruned tree, or the error is raised and the token is untouched |
| SnapshotValues.CreateNull | src/SnapTest/SnapshotValue.cs:80 | a new wrapper around null |
| SnapshotValues.CreateObject | src/SnapTest/SnapshotValue.cs:81 | a new wrapper around an empty object |
| SnapshotValues.FromObjectValue | src/SnapTest/SnapshotValue.cs:82 | a new wrapper around the ordered conversion |
| SnapshotValues.ArrayToken | src/SnapTest/SnapshotValue.cs:85 | a new wrapper around the array of the values, in order |
| SnapshotValues.GuidIsString | src/SnapTest/SnapshotValue.cs:133-140 | a Guid converts to the string of its text, as a string does |
| SnapshotValues.NullPathSelectsRoot | src/SnapTest/SnapshotValue.cs:123 | `$` selects exactly the root |
| SnapshotValues.PropertyValueIsNamePath | src/SnapTest/SnapshotValue.cs:101 | PropertyValue agrees with the single-name path, both ways |
| SnapshotValues.RemovePathsWellFormed | src/SnapTest/SnapshotValue.cs:107-121 | a successful exclusion keeps the tree well formed |
| SnapshotValues.RemoveNoPaths | src/SnapTest/SnapshotValue.cs:107-121 | excluding nothing returns the tree unchanged |
| SnapshotValues.RootExclusionRejected | src/SnapTest/SnapshotValue.cs:111-112 | any path denoting the root makes the whole exclusion fail |
| SnapshotValues.RootExclusionNamed | src/SnapTest/SnapshotValue.cs:111-112 | with excludable paths before it, the failure is the root error naming that path |
| Filtering.FilterValue | src/SnapTest/Snapshot.SnapshotValue.cs:15-31 | the method returns the specification's filtered value; the wrapper itself is pruned in place |
| Filtering.ActualSnapshotValue | src/SnapTest/Snapshot.SnapshotValue.cs:7-8 | a new wrapper holding the filtered actual value, or the filter's error |
| Filtering.FilterSelectedOk | src/SnapTest/Snapshot.SnapshotValue.cs:15-31 | filtering fails exactly when an exclude path is not excludable or an include path does not parse |
| Filtering.NullActualUnfiltered | src/SnapTest/Snapshot.SnapshotValue.cs:8 | a null actual is JSON null, even with a root exclusion |
| Filtering.FilterNothing | src/SnapTest/Snapshot.SnapshotValue.cs:18-22 | with no paths, the value comes back unchanged |
| Filtering.FilterIncludesInOrder | src/SnapTest/Snapshot.SnapshotValue.cs:24 | include paths select, in path order, from the tree the exclusions left |
| Filtering.FilterOnePath | src/SnapTest/Snapshot.SnapshotValue.cs:26-30 | one include path: null, the single match, or the array of matches |
| Filtering.PlainNamePath | src/SnapTest/SnapshotValue.cs:123 | a plain member name parses as the path of that member |
| Filtering.MemberMatches | src/SnapTest/SnapshotValue.cs:123 | a member name matches that member of an object, or nothing |
| Filtering.ResolveOne | src/SnapTest/SnapshotValue.cs:109-117 | a single exclude path that parses and does not match the root resolves to exactly its own matches |
| Filtering.ExcludeMember | src/SnapTest/SnapshotValue.cs:120 | excluding a member by name removes it and leaves an object |
| Filtering.ExcludedMemberNotIncluded | src/SnapTest/Snapshot.SnapshotValue.cs:17-27 | exclusion comes first: a member both excluded and included filters to null |
| Filtering.ApplySelectPath | src/SnapTest/Snapshot.Json.cs:68-69 | null gives the root alone; otherwise the path's matches, or its parse error |
| Filtering.RemoveExcludedPaths | src/SnapTest/Snapshot.Json.cs:48-66 | the method computes the JToken generation's exclusion, with the corrected detach loop (see Findings) |
| Filtering.ExcludeMemberTwice | src/SnapTest/Snapshot.Json.cs:50-65 | excluding a present member by name twice fails as written in every generation, while the corrected exclusion equals excluding it once |
| Filtering.FilterJsonValue | src/SnapTest/Snapshot.Json.cs:33-46 | the method computes the JToken generation's filter: no token, one, or an array |
| Filtering.NullSelectPathKeepsRoot | src/SnapTest/Snapshot.Json.cs:69 | with no select path, the whole pruned tree is kept |
| Filtering.GenerationsFilterAlike | src/SnapTest/Snapshot.Json.cs:33-46 | one select path and one include path filter alike, apart from null versus no token, and the root error |
| Filtering.EmptySelectionDiffers | src/SnapTest/Snapshot.Json.cs:42 | an empty selection is no token in the JToken code and JSON null in the SnapshotValue code |
| Filtering.SerializersAgree | src/SnapTest/Snapshot.Json.cs:28-31 | both serializers write a string bare and anything else as JSON |
| Comparers.AbsentNeverMatches | src/SnapTest/SnapshotComparer.cs:21-22 | a missing snapshot never matches; a match implies a snapshot |
| Comparers.CompareReflexive | src/SnapTest/SnapshotComparer.cs:21-22 | every well-formed value matches itself, under both comparers |
| Comparers.CompareSymmetric | src/SnapTest/SnapshotComparer.cs:21-22 | matching is symmetric |
| Comparers.CompareIgnoresMemberOrder | src/SnapTest/SnapshotComparer.cs:21-22 | reordering an object's members does not change either verdict |
| Comparers.ComparersAgree | src/SnapTest/SnapshotEqualityComparer.cs:22-23 | the comparer and the equality comparer always agree; their sources are the same code |
| Comparers.DefaultWhenUnset | src/SnapTest/Snapshot.cs:43 | with no comparer set, the verdict is "a snapshot exists and is deeply equal" |
| Messages.MessageLog.Write | src/SnapTest/IMessageWriter.cs:17 | the message is appended, and nothing else changes |
| Messages.Emit | src/SnapTest/Snapshot.cs:52-56 | a writer gains the message; no writer means no change |
| Messages.Message | src/SnapTest/Snapshot.cs:52-56 | the method emits through a writer when there is one |
| Messages.Raised | src/SnapTest/Snapshot.FileIO.cs:40 | the flag is set, and the other flags are unchanged |
| Messages.Announce | src/SnapTest/Snapshot.FileIO.cs:92-96 | the message, then the tip only while its flag is down; the flag is up afterwards |
| Messages.WithTip | src/SnapTest/Snapshot.FileIO.cs:92-96 | the notices gained in each case of writer and flag |
| Messages.TipShownOnce | src/SnapTest/Snapshot.FileIO.cs:93-96 | however often the message repeats, its tip appears at most once |
| Files.FileStore.ReadAllText | src/SnapTest/Snapshot.FileIO.cs:22 | the stored contents of an existing file |
| Files.FileStore.Delete | src/SnapTest/Snapshot.FileIO.cs:83-84 | the file no longer exists; every other file is unchanged |
| Files.FileStore.WriteAllText | src/SnapTest/Snapshot.FileIO.cs:135 | the file holds exactly the text; every other file is unchanged |
| Settings.DefaultConfig | src/SnapTest/SnapshotSettings.cs:61-182 | the initial value of every property; the two flags come from the environment |
| Settings.GroupSetter | src/SnapTest/SnapshotSettings.cs:43-53 | blank text is an ArgumentOutOfRangeException; null stays null; anything else is stored trimmed |
| Settings.GroupSetterTrims | src/SnapTest/SnapshotSettings.cs:51 | the stored group is the input with its white-space ends removed |
| Settings.GroupSetterIdempotent | src/SnapTest/SnapshotSettings.cs:47-52 | storing a stored group again changes nothing |
| Settings.SanitiseFileName | src/SnapTest/SnapshotSettings.cs:184-191 | each bad file-name character becomes `_`, the others stay, and no bad character remains |
| Settings.CombineSanitised | src/SnapTest/SnapshotSettings.cs:191 | an empty name gives the directory; any other sanitised name is never rooted, so it goes after the directory |
| Settings.FilePathWithExtension | src/SnapTest/SnapshotSettings.cs:186-192 | a blank base name is an error; otherwise directory prefix plus the sanitised name and extension |
| Settings.FilePathsInjective | src/SnapTest/SnapshotSettings.cs:191 | two paths in one directory are equal exactly when the sanitised names are |
| Settings.GroupedMismatchPathExists | src/SnapTest/SnapshotSettings.cs:213-214 | a grouped mismatch file has a path even with no snapshot name |
| Settings.DefaultPathsDiffer | src/SnapTest/SnapshotSettings.cs:174-214 | with the default extensions, the mismatch file is never the snapshot file |
| Settings.SnapshotSettings.constructor | src/SnapTest/SnapshotSettings.cs:61-182 | a new settings object holds the defaults and no writer |
| Settings.SnapshotSettings.FromConfig | src/SnapTest/SnapshotSettingsBuilder.cs:38 | a factory-made settings object holds the given property values |
| Settings.SnapshotSettings.SetSnapshotGroup | src/SnapTest/SnapshotSettings.cs:47-52 | a blank group is refused with nothing changed; otherwise only the group changes |
| Settings.SnapshotSettings.Apply | src/SnapTest/SnapshotSettingsBuilder.cs:41-42 | running an initializer assigns its properties and sets the group through the setter |
| Settings.SnapshotSettings.AssignAllButGroup | src/SnapTest/SnapshotSettingsBuilder.cs:42 | every property but the group takes the initializer's value |
| Settings.SnapshotSettings.AssignSelection | src/SnapTest/SnapshotSettingsBuilder.cs:42 | the name, the indentation flag, the select path and the include and exclude paths take the initializer's values; nothing else changes |
| Settings.SnapshotSettings.AssignStorage | src/SnapTest/SnapshotSettingsBuilder.cs:42 | the create-missing and refresh flags, the directory, both file extensions and the comparer take the initializer's values; nothing else changes |
| Settings.InitializerKeepingGroup | src/SnapTest/SnapshotSettingsBuilder.cs:42 | an initializer that keeps the group succeeds with its own values |
| Settings.SnapshotField.constructor | src/SnapTest/SnapshotField.cs:58-62 | the field keeps its settings object and path |
| Settings.SnapshotField.Include | src/SnapTest/SnapshotField.cs:80-84 | the path is appended to IncludedPaths, nothing else changes, and the field is returned |
| Settings.SnapshotField.Exclude | src/SnapTest/SnapshotField.cs:96-100 | the path is appended to ExcludedPaths, nothing else changes, and the field is returned |
| SettingsBuilder.InitializeFirstValid | src/SnapTest/SnapshotSettingsBuilder.cs:40-43 | initializers keep the group a stored value |
| SettingsBuilder.InitializeAppended | src/SnapTest/SnapshotSettingsBuilder.cs:67 | a new initializer runs after all the earlier ones, on what they left |
| SettingsBuilder.InitializePrefix | src/SnapTest/SnapshotSettingsBuilder.cs:40-43 | initializers registered later do not affect the earlier ones' outcome |
| SettingsBuilder.InitializeStops | src/SnapTest/SnapshotSettingsBuilder.cs:41-42 | an initializer that throws stops the rest |
| SettingsBuilder.ExplicitNameSurvives | src/SnapTest/SnapshotSettingsBuilder.cs:40-45 | a name set by the last initializer survives defaults that only fill in a missing name |
| SettingsBuilder.SnapshotSettingsBuilder.constructor | src/SnapTest/SnapshotSettingsBuilder.cs:24-27 | the builder keeps the factory and has no initializers |
| SettingsBuilder.SnapshotSettingsBuilder.WithSettings | src/SnapTest/SnapshotSettingsBuilder.cs:62-69 | null is an ArgumentNullException; otherwise the initializer is appended and the builder returned |
| SettingsBuilder.SnapshotSettingsBuilder.Build | src/SnapTest/SnapshotSettingsBuilder.cs:36-48 | a fresh object from the factory, each initializer in order, then the defaults; the first error stops them |
| Engine.Noticed | src/SnapTest/Snapshot.FileIO.cs:37-47 | files unchanged; the flag raised; the notices as Announce emits them |
| Engine.ReadFrom | src/SnapTest/Snapshot.FileIO.cs:18-50 | which files are used (exists, and not a forced ungrouped refresh), the parse error, and when the warning is written |
| Engine.GetSnapshotted | src/SnapTest/Snapshot.FileIO.cs:65-76 | ungrouped: the same value twice; grouped: the group's member of an object file; the file read is what was read |
| Engine.GroupFile | src/SnapTest/Snapshot.FileIO.cs:111-122 | an object; for the mismatch file, exactly this group |
| Engine.ReplaceMemberLookup | src/SnapTest/Snapshot.FileIO.cs:118-119 | replacing a group's value changes that group's lookup only |
| Engine.GroupFileKeepsOtherGroups | src/SnapTest/Snapshot.FileIO.cs:116-122 | the group holds the actual value; every other group of the existing file is kept |
| Engine.GroupFileWellFormed | src/SnapTest/Snapshot.FileIO.cs:111-122 | the written group file is well formed |
| Engine.ReplaceMemberWellFormed | src/SnapTest/Snapshot.FileIO.cs:118-119 | replacing a group's value keeps the group file well formed |
| Engine.AddMemberWellFormed | src/SnapTest/Snapshot.FileIO.cs:121 | adding a new group keeps the group file well formed |
| Engine.ReadSnapshotFromFile | src/SnapTest/Snapshot.FileIO.cs:16-51 | the method changes the tips and the writer as ReadSnapshot says, and returns its value |
| Engine.GetSnapshottedValue | src/SnapTest/Snapshot.FileIO.cs:65-76 | the method returns GetSnapshotted's pair and world |
| Engine.WriteValueToFile | src/SnapTest/Snapshot.FileIO.cs:129-136 | the file holds the text plus NewLine |
| Engine.WriteActualValue | src/SnapTest/Snapshot.FileIO.cs:107-125 | the chosen file holds the serialized value, or the group file |
| Engine.DeleteMismatchFile | src/SnapTest/Snapshot.FileIO.cs:80-84 | the mismatch path is derived, with its error, and that file is removed |
| Engine.WriteSnapshotIfRequired | src/SnapTest/Snapshot.FileIO.cs:78-127 | the files, flags and notices change exactly as WriteIfRequired says |
| Engine.WriteFiles | src/SnapTest/Snapshot.FileIO.cs:86-126 | the method's effects are WriteIfRequired's |
| Engine.WriteChosenFile | src/SnapTest/Snapshot.FileIO.cs:88-105 | refresh first, else mismatch on a failed comparison, else nothing |
| Engine.RefreshSnapshotFile | src/SnapTest/Snapshot.FileIO.cs:89-96 | the snapshot file is written and announced |
| Engine.WriteMismatchFile | src/SnapTest/Snapshot.FileIO.cs:97-104 | the mismatch file is written and announced |
| Engine.CompareTo | src/SnapTest/Snapshot.cs:30-48 | the snapshot is read before a filter error is reported; the answer and every effect are CompareCorrected's (see Findings) |
| Engine.CompareFiltered | src/SnapTest/Snapshot.cs:36-47 | the read comes first and its error wins, then the filter's error, then the verdict and writes, all as Compared says |
| Engine.ConcludeComparison | src/SnapTest/Snapshot.cs:40-47 | the method's verdict and writes are Conclude's |
| EngineProperties.NullSettingsRefused | src/SnapTest/Snapshot.cs:32-33 | null settings are an ArgumentNullException, with nothing read or written |
| EngineProperties.ConcludeAnswersVerdict | src/SnapTest/Snapshot.cs:40-47 | a successful answer is the verdict: a refresh passes, otherwise the comparer decides |
| EngineProperties.RefreshWritesSnapshot | src/SnapTest/Snapshot.FileIO.cs:82-96 | a refresh writes the snapshot file and removes the mismatch file |
| EngineProperties.MismatchKeepsSnapshot | src/SnapTest/Snapshot.FileIO.cs:97-104 | a failed comparison keeps the snapshot file and writes the mismatch file |
| EngineProperties.MatchOnlyCleans | src/SnapTest/Snapshot.FileIO.cs:82-105 | a pass without a refresh only deletes the mismatch file: no message, no tip |
| EngineProperties.ForcedRefreshPasses | src/SnapTest/Snapshot.cs:40-41 | a forced refresh never reports a mismatch |
| EngineProperties.SnapshottedWellFormed | src/SnapTest/Snapshot.FileIO.cs:65-76 | the value read, and its file, are well formed when the parser's output is |
| EngineProperties.RawReadBack | src/SnapTest/Snapshot.FileIO.cs:23-25 | an ungrouped string is written bare and read back as the same string |
| EngineProperties.JsonReadBack | src/SnapTest/Snapshot.FileIO.cs:28-29 | any other ungrouped value is written as JSON and parsed back |
| EngineProperties.GroupReadBack | src/SnapTest/Snapshot.FileIO.cs:108-124 | a group file is written as an object, and the group's member is read back |
| EngineProperties.SameValueMatches | src/SnapTest/Snapshot.cs:40-45 | a snapshot holding the actual value passes, and only the mismatch file goes |
| EngineProperties.RefreshLeaves | src/SnapTest/Snapshot.FileIO.cs:89-109 | after a forced refresh, the snapshot file holds the filtered actual value |
| EngineProperties.WrittenMatches | src/SnapTest/Snapshot.cs:34-45 | a file holding the filtered value makes a plain comparison pass |
| EngineProperties.RefreshThenMatches | src/SnapTest/Snapshot.cs:34-47 | what a refresh writes, the next plain comparison reads back and accepts |
| EngineProperties.NameDictionary | src/SnapTest/Snapshot.SnapshotValue.cs:8 | the example dictionary converts to one `Name` member |
| EngineProperties.NameTokens | src/SnapTest/SnapshotValue.cs:123 | the path `Name` selects exactly the one `Name` member of the converted dictionary |
| EngineProperties.NameSelectedString | src/SnapTest/Snapshot.SnapshotValue.cs:24-28 | filtered to `Name`, that dictionary is the bare string |
| EngineProperties.AsWrittenRefreshThenFails | src/SnapTest/Snapshot.cs:35 | the code as written refreshes a filtered string, then fails to parse it on the next comparison |
| EngineProperties.AsWrittenFirstRun | src/SnapTest/Snapshot.cs:35 | as written, the forced refresh of the example passes and writes the bare string and a newline |
| EngineProperties.AsWrittenSecondRun | src/SnapTest/Snapshot.cs:35 | as written, a dictionary is read back as JSON, so a bare string that does not parse is an error |
| EngineProperties.CorrectedRefreshThenMatches | src/SnapTest/Snapshot.cs:35 | with the read decided from the filtered value, the same refresh reads back and matches |
| EngineProperties.FilterErrorAfterRead | src/SnapTest/Snapshot.cs:36-38 | a filter error is reported after the read: the read's error if it fails, else the filter's, with the read's effects; as written and corrected agree |
| EngineProperties.RootExcludedFilter | src/SnapTest/SnapshotValue.cs:111-112 | excluding `$` is the root-exclusion error, whatever the value and the include paths |
| EngineProperties.MissingSnapshotRead | src/SnapTest/Snapshot.FileIO.cs:36-50 | a missing snapshot, not to be created, reads as nothing, with the warning and the rerun tip |
| EngineProperties.RootExclusionAfterWarning | src/SnapTest/Snapshot.cs:36-38 | excluding `$` with the snapshot missing gives the missing-file warning and tip, then the root-exclusion error |
| Context.ExpectedOf | src/SnapTest/SnapshotContext.cs:11-16 | reading Expected succeeds exactly once it is known; before that it is an InvalidOperationException |
| Context.WithExpected | src/SnapTest/SnapshotContext.cs:18-21 | after the setter, Expected reads back the value; TestName and Actual are kept |
| Context.ExpectedNeverReverts | src/SnapTest/SnapshotContext.cs:18-21 | once set, Expected stays known, and the last value set wins |
| Context.SnapshotContext.constructor | src/SnapTest/SnapshotContext.cs:24 | the test name; no Actual; Expected unknown |
| Context.SnapshotContext.Expected | src/SnapTest/SnapshotContext.cs:10-16 | the getter's value, or its error |
| Context.SnapshotContext.SetExpected | src/SnapTest/SnapshotContext.cs:18-21 | the state becomes WithExpected of the old one |
| Context.SnapshotContext.SetActual | src/SnapTest/SnapshotContext.cs:7 | only Actual changes |
| Context.SnapshotContext.Message | src/SnapTest/SnapshotContext.cs:46 | a context with a writer appends the message |
| MiddlewareOptions.DefaultStorageOptions | src/SnapTest/Middleware/FileStorageOptions.cs:8-17 | flags from the environment, no directory, the `.snapshot` extension |
| MiddlewareOptions.SnapshotFileName | src/SnapTest/Middleware/FileStorageOptions.cs:20 | each character of name plus extension is kept, except '/' and '\\', which become '_'; so no separator remains |
| MiddlewareOptions.SnapshotFilePathOf | src/SnapTest/Middleware/FileStorageOptions.cs:19-20 | a null directory is an ArgumentNullException; otherwise the directory combined with the file name |
| MiddlewareOptions.PlainNameKept | src/SnapTest/Middleware/FileStorageOptions.cs:20 | a name without separators is kept as it is |
| MiddlewareOptions.PathCombineInjective | src/SnapTest/Middleware/FileStorageOptions.cs:20 | with a fixed directory, Path.Combine is one-to-one on relative names |
| MiddlewareOptions.DistinctTestsDistinctFiles | src/SnapTest/Middleware/FileStorageOptions.cs:19-20 | names that differ after replacement give different snapshot paths |
| MiddlewareOptions.FileStorageOptions.constructor | src/SnapTest/Middleware/FileStorageOptions.cs:8-17 | a new options object holds the defaults |
| MiddlewareOptions.FileStorageOptions.Apply | src/SnapTest/SnapshotBuilder.cs:107 | after an action runs, the properties are the action's result |
| MiddlewareOptions.DefaultJsonOptions | src/SnapTest/Middleware/JsonSerializerOptions.cs:7-10 | indented output; strings not serialized; no select path; nothing excluded |
| MiddlewareOptions.JsonSerializerOptions.constructor | src/SnapTest/Middleware/JsonSerializerOptions.cs:7-10 | a new options object holds the defaults |
| MiddlewareOptions.JsonSerializerOptions.Apply | src/SnapTest/SnapshotBuilder.cs:110 | after an action runs, the properties are the action's result |
| Stages.SerializedValue | src/SnapTest/Middleware/JsonSerializerMiddlware.cs:38-47 | null serializes as `null`; anything else is filtered, then serialized |
| Stages.FilterAndSerializeValue | src/SnapTest/Middleware/JsonSerializerMiddlware.cs:38-47 | the method's result is SerializedValue |
| Stages.JsonProcessBefore | src/SnapTest/Middleware/JsonSerializerMiddlware.cs:26-27 | the context changes as JsonBefore says |
| Stages.JsonProcessAfter | src/SnapTest/Middleware/JsonSerializerMiddlware.cs:29-35 | the context changes as JsonAfter says |
| Stages.ComparatorProcessAfter | src/SnapTest/Middleware/StringComparatorMiddleware.cs:7-15 | the verdict is ComparatorAfter's, and nothing changes |
| Stages.Called | src/SnapTest/Middleware/FunctionCallMiddleware.cs:12 | the callback's Actual is kept; Expected is set only when the callback sets it |
| Stages.FunctionProcessAfter | src/SnapTest/Middleware/FunctionCallMiddleware.cs:11-12 | the context changes as FunctionAfter says |
| Stages.ReadingProcessAfter | src/SnapTest/Middleware/FileStorageReadingMiddleware.cs:10-42 | the context, tips and writer change as ReadingAfter says |
| Stages.PayloadText | src/SnapTest/Middleware/FileStorageWritingMiddleware.cs:44-53 | only a string can be written; null and other types get the two wordings of the error |
| Stages.WriteValue | src/SnapTest/Middleware/FileStorageWritingMiddleware.cs:44-60 | a string is written exactly, without a NewLine; anything else is an error with no write |
| Stages.StoreValue | src/SnapTest/Middleware/FileStorageWritingMiddleware.cs:23-38 | one branch's write plus announcement, as Stored says |
| Stages.WriteFiles | src/SnapTest/Middleware/FileStorageWritingMiddleware.cs:16-41 | the files, tips and writer change as WritingWorld says |
| Stages.WritingProcessAfter | src/SnapTest/Middleware/FileStorageWritingMiddleware.cs:12-42 | the effects are WritingAfter's |
| Stages.StageBefore | src/SnapTest/Middleware/SnapshotMiddlewareBase.cs:22 | a stage's work before ProcessNext changes the context as Before says |
| Stages.StageAfter | src/SnapTest/Middleware/SnapshotMiddlewareBase.cs:22 | a stage's work after ProcessNext changes the state as After says |
| Pipeline.RunSplits | src/SnapTest/Middleware/SnapshotMiddlewareBase.cs:21 | a run is all the work before ProcessNext, outside in, then all the work after it, inside out |
| Pipeline.RegistrationOrder | src/SnapTest/Middleware/SnapshotMiddlewarePipeline.cs:17 | the chain runs in reverse registration order; so the stages' after-work runs in registration order, each given the answer of the one before |
| Pipeline.FailureStays | src/SnapTest/Middleware/FunctionCallMiddleware.cs:12 | no stage turns a failure of the rest of the chain into success |
| Pipeline.FailureStaysInOrder | src/SnapTest/Middleware/StringComparatorMiddleware.cs:9-10 | once the answer is false, no later stage makes it true |
| Pipeline.FailingFunctionFails | src/SnapTest/Middleware/FunctionCallMiddleware.cs:12 | a registered callback that always answers false makes the whole run fail |
| Pipeline.Middleware.constructor | src/SnapTest/Middleware/SnapshotMiddlewareBase.cs:7 | a new stage is a chain of itself |
| Pipeline.Middleware.Use | src/SnapTest/Middleware/SnapshotMiddlewareBase.cs:9-19 | null leaves the chain; otherwise the next chain is appended at the end; the stage itself is returned |
| Pipeline.Middleware.ProcessNext | src/SnapTest/Middleware/SnapshotMiddlewareBase.cs:21 | true at the end of the chain; otherwise the run of the rest of the chain |
| Pipeline.Middleware.Process | src/SnapTest/Middleware/SnapshotMiddlewareBase.cs:22 | the answer and effects are those of Run over the chain's stages |
| Pipeline.SnapshotMiddlewarePipeline.constructor | src/SnapTest/Middleware/SnapshotMiddlewarePipeline.cs:8 | a new pipeline has no stages |
| Pipeline.SnapshotMiddlewarePipeline.Use | src/SnapTest/Middleware/SnapshotMiddlewarePipeline.cs:12-19 | null is an ArgumentNullException; otherwise the new stage's chain goes in front of the old one |
| Pipeline.SnapshotMiddlewarePipeline.UseNew | src/SnapTest/Middleware/SnapshotMiddlewarePipeline.cs:21-28 | a new stage, initialized when given an initializer, goes in front |
| Pipeline.SnapshotMiddlewarePipeline.UseFunction | src/SnapTest/Middleware/SnapshotMiddlewarePipeline.cs:30-31 | a function stage goes in front |
| Pipeline.SnapshotMiddlewarePipeline.UseAction | src/SnapTest/Middleware/SnapshotMiddlewarePipeline.cs:33-34 | a function stage that always answers true goes in front |
| Pipeline.AlwaysTrue | src/SnapTest/Middleware/SnapshotMiddlewarePipeline.cs:34 | the wrapped callback answers true, with the action's effects |
| MiddlewareProperties.ReadingDecisionTable | src/SnapTest/Middleware/FileStorageReadingMiddleware.cs:15-41 | Expected is known exactly when the file exists or creation or refresh is on; it is the trimmed file or Actual; the warning appears exactly when it stays unknown |
| MiddlewareProperties.ReadingWithoutDirectory | src/SnapTest/Middleware/FileStorageOptions.cs:20 | no directory: Path.Combine's error, with nothing changed |
| MiddlewareProperties.WritingDecisionTable | src/SnapTest/Middleware/FileStorageWritingMiddleware.cs:14-41 | the old mismatch file always goes; then the mismatch branch, the snapshot branch, the non-string error, or no write; the answer is passed on |
| MiddlewareProperties.ExistingSnapshotKept | src/SnapTest/Middleware/FileStorageWritingMiddleware.cs:31 | without a forced refresh, an existing snapshot file is never rewritten |
| MiddlewareProperties.RefreshedSnapshotNextRun | src/SnapTest/Middleware/FileStorageReadingMiddleware.cs:21-25 | a refreshed string reads back less one trailing newline; the next comparison passes exactly when the string has no trailing newline |
| MiddlewareProperties.ComparatorVerdict | src/SnapTest/Middleware/StringComparatorMiddleware.cs:12-14 | false while Expected is unknown; true for the same text; symmetric; no state change |
| MiddlewareProperties.EqualsIgnoreCaseReflexive | src/SnapTest/Middleware/StringComparatorMiddleware.cs:14 | every text equals itself when case is ignored |
| MiddlewareProperties.ComparatorExamples | src/SnapTest/Middleware/StringComparatorMiddleware.cs:14 | `"42"` matches 42, `Value` matches `vALUE`, and null matches null |
| MiddlewareProperties.SerializedLikeJTokenFilter | src/SnapTest/Middleware/JsonSerializerMiddlware.cs:38-86 | the JSON stage fails exactly when the JToken generation's filter does, and writes that filter's result |
| MiddlewareProperties.UnfilteredSerialization | src/SnapTest/Middleware/JsonSerializerMiddlware.cs:46 | with no paths, the whole value is serialized, and a string is quoted |
| MiddlewareProperties.JsonBeforeTable | src/SnapTest/Middleware/JsonSerializerMiddlware.cs:26-27 | a string Actual is left alone unless strings are serialized; otherwise it becomes its serialization, or the error; Expected is untouched |
| MiddlewareProperties.FunctionCallShortCircuits | src/SnapTest/Middleware/FunctionCallMiddleware.cs:12 | after a failure the callback does not run; a null callback passes; otherwise the callback answers |
| MiddlewareProperties.DefaultPipelineRun | src/SnapTest/SnapshotBuilder.cs:54-64 | the default chain runs reading's work first and writing's last, each on the answer of the one before |
| MiddlewareProperties.DefaultPipelineMatches | src/SnapTest/SnapshotBuilder.cs:54-64 | a string equal to its snapshot passes; nothing is written, only the mismatch file removed |
| MiddlewareProperties.DefaultPipelineMismatch | src/SnapTest/SnapshotBuilder.cs:54-64 | a string that differs from its snapshot fails and is stored in the mismatch file |
| Builders.ApplyAllAppend | src/SnapTest/SnapshotBuilder.cs:107 | running `a + b` is running `a`, then `b` |
| Builders.BaseDirectoryDefault | src/SnapTest/SnapshotBuilderBase.cs:27-28 | with no user action, the directory is the test's source directory combined with the tail |
| Builders.LaterDirectoryWins | src/SnapTest/SnapshotBuilderBase.cs:134-135 | a later action's directory overrides the constructor's |
| Builders.SnapshotBuilder.constructor | src/SnapTest/SnapshotBuilder.cs:14-15 | an empty pipeline and no actions |
| Builders.SnapshotBuilder.Base | src/SnapTest/SnapshotBuilderBase.cs:18-28 | the directory action registered first; the `_snapshots` tail |
| Builders.SnapshotBuilder.WithFileStorageOptions | src/SnapTest/SnapshotBuilder.cs:33-40 | null is an ArgumentNullException; otherwise the action is appended |
| Builders.SnapshotBuilder.WithJsonOptions | src/SnapTest/SnapshotBuilder.cs:42-49 | null is an ArgumentNullException; otherwise the action is appended |
| Builders.SnapshotBuilder.ConfigureStorage | src/SnapTest/SnapshotBuilder.cs:106-107 | the loop runs every action on the object, in order |
| Builders.SnapshotBuilder.ConfigureJson | src/SnapTest/SnapshotBuilder.cs:109-110 | the loop runs every action on the object, in order |
| Builders.SnapshotBuilder.BuildFileStorageOptions | src/SnapTest/SnapshotBuilder.cs:19-24 | a new object with every action applied |
| Builders.SnapshotBuilder.BuildJsonOptions | src/SnapTest/SnapshotBuilder.cs:26-31 | a new object with every action applied |
| Builders.SnapshotBuilder.UseFileStorageReadingMiddleware | src/SnapTest/SnapshotBuilder.cs:66 | a reading stage with the built options goes in front |
| Builders.SnapshotBuilder.UseJsonSerializerMiddlware | src/SnapTest/SnapshotBuilder.cs:69 | a JSON stage with the built options goes in front |
| Builders.SnapshotBuilder.UseStringComparatorMiddleware | src/SnapTest/SnapshotBuilder.cs:72 | a comparator stage goes in front |
| Builders.SnapshotBuilder.UseFileStorageWritingMiddleware | src/SnapTest/SnapshotBuilder.cs:75 | a writing stage with the built options goes in front |
| Builders.SnapshotBuilder.BuildDefaultMiddlewarePipeline | src/SnapTest/SnapshotBuilder.cs:54-64 | the chain is writing, comparator, JSON, reading: the reverse of registration |
| Builders.SnapshotBuilder.Build | src/SnapTest/SnapshotBuilder.cs:51-52 | the builder's own chain when it has one, otherwise the default |
| Builders.SnapshotBuilder.Use | src/SnapTest/SnapshotBuilder.cs:80-84 | as the pipeline's Use |
| Builders.SnapshotBuilder.UseNew | src/SnapTest/SnapshotBuilder.cs:86-90 | as the pipeline's Use<T> |
| Builders.SnapshotBuilder.UseFunction | src/SnapTest/SnapshotBuilder.cs:92-96 | as the pipeline's Use(Func) |
| Builders.SnapshotBuilder.UseAction | src/SnapTest/SnapshotBuilder.cs:98-102 | as the pipeline's Use(Action) |

## Left out

- JSON indentation (IndentJson, WriteIndented): every value is serialized in compact form. The flag is carried but has no effect.
- Parsing snapshot text as JSON: this is the parameter `parse`. The engine's read-back lemmas assume it inverts the serializer (`ReadsWritten`). Newtonsoft's JToken.Parse does not do so for a string that looks like an ISO 8601 date: with its default DateParseHandling it reads that string as a Date token. So JsonReadBack, GroupReadBack and the lemmas built on them say nothing about a snapshot holding such a string, and date tokens are not modelled.
- Directory creation before a write: every write succeeds.
- File-system failures (permissions, a directory in place of a file) are not modelled.
- The environment variables are booleans, "set to a non-empty value", passed in when settings or options objects are created.
- GetSnapshotDirectoryFromStackTrace: the directory of the test's source file is the parameter `testDirectory`. The stack-trace walk and the async-method search (SnapshotBuilderBase.cs:91-102 and 140-157) are left out.
- `GetMismatedActualFilePath`: the writing stage calls it, but its class (FileStorageMiddlewareBase) is not part of this model. It is the parameter `mismatchPath`.
- `SnapshotSettings.ApplyDefaults`: this is the parameter `applyDefaults` of `Build`.
- The `Snapshot` object that `Build` wraps the chain in is not modelled: `Snapshot.cs` here is the static engine class. `Build` returns the chain, and the context's `Snapshot` field is left out.
- SnapshotBuilder and SnapshotBuilderBase hold the same code, so they are one class with two constructors. IsTestMethod, the abstract member, is left out.
- Option actions copy their results into the stage: a stage holds option values and does not share an options object.
- Pipeline.Middleware.Use: the stages of a chain must be disjoint from those of the chain appended to it. Cycles and chains that share stages are not modelled.
- Builders.SnapshotBuilder.UseAction: a null Action cannot be passed. The source would fail only when the stage runs.
- Callbacks of function stages may change Actual and Expected only. Changing TestName or writing messages from a callback is not modelled.
- Context.SnapshotContext.Message: the `Message(format, args)` overload (SnapshotContext.cs:35) is left out, and notices stand for the texts.
- Text functions:
  - EqualsIgnoreCase folds ASCII letters only; InvariantCultureIgnoreCase folds more.
  - IsWhiteSpace covers the ASCII and Latin-1 white-space characters only.
  - NewLine is the Unix "\n".
  - Path.Combine is Unix Path.Combine.
- HostValues.ToToken: a Guid is modelled as the string of its text. The plain JToken.FromObject gives a JValue of type Guid, which JToken.DeepEquals does not equate with a string token; the serialized text is the same.
- FromObjectDeepEqualsToToken: because ToToken writes a Guid as a string, the deep equality it states holds in the source only for objects that hold no Guid.
- DictDeepEqualsToToken: holds in the source only for a dictionary that holds no Guid, for the same reason.
- RecordDeepEqualsToToken: holds in the source only for an object none of whose properties holds a Guid, for the same reason.
- Engine.CompareTo: it decides plain-text reading from the filtered value, as CompareCorrected does. Snapshot.cs:35 decides it from the unfiltered actual value, so a dictionary filtered to a string and stored bare fails to parse there (see Findings). The decision as written is Engine.CompareAsWritten.
- SnapshotValues.SnapshotValue.RemovePaths: it uses the corrected detach loop, so a member matched twice is removed once. SnapshotValue.cs:120 throws InvalidOperationException instead; that is modelled by PathFilter.ExcludePathsAsWritten (see Findings).
- Pipeline.SnapshotMiddlewarePipeline.UseAction: a null Action cannot be passed. The source accepts it and fails only when the stage runs.
- HostValues.HostText: the text of a type that is not a string, number, Boolean or Guid is its type name.
- JSONPath: only the child-segment subset used by the library is modelled: names, indexes and quoted-name lists. Wildcards, slices, filters and recursive descent are rejected by the model's parser rather than evaluated.
- ParseIndexList: a negative index such as `[-1]` is rejected by the model's parser. Newtonsoft's JPath parses it; the index then selects nothing on a value that is not an array, and SelectTokens throws ArgumentOutOfRangeException on an array. That exception is not modelled.
- JsonPathSyntax.ParseSegments: JPath ends a path at a space and accepts only spaces after it, and so does the model. JPath also trims other trailing white space from a pending name (TrimEnd). The model does not trim tabs or line breaks there.
- JsonPathSyntax.ParsePath: every parse failure is the one error `PathSyntax`. JPath throws JsonException for most of them. For a `$` that ends a text after spaces (` $`), and for a bracket left open after spaces, it throws IndexOutOfRangeException instead. The exception type is not modelled.
- JSONPath `(`: JPath opens an indexer at `(` as it does at `[`. The model rejects `(`, like the filters it would introduce.
- DetachAll: the method follows the corrected detach loop, so excluding a member twice removes it once. The code as written in all three copies of the loop (SnapshotValue.cs:120, Snapshot.Json.cs:62-65, JsonSerializerMiddlware.cs:60-64) throws instead. That behaviour is modelled by PathFilter.ExcludePathsAsWritten and JsonEdit.DetachAsWritten, not by the methods (see Findings).
- Filtering.RemoveExcludedPaths and PathFilter.RemoveMatches: they also follow the corrected detach loop, for the same reason as DetachAll.
- JSON numbers are integers: floating point is not modelled.
- The once-per-process tip flags are objects passed to each call; they are not global statics.
- Concurrency between tests is not modelled.
- OrdinalOrder.SortByName: the contract resolver's OrderBy (SnapshotValue.cs:145, Snapshot.Json.cs:90) compares names with the culture-sensitive default string comparer. The model sorts by the ordinal order. Three effects follow:
  - The member order of a written snapshot file can differ, for example `URL` and `Uid` sort in opposite orders.
  - Comparisons are unaffected, because DeepEquals ignores member order.
  - A culture comparer may also rank distinct names as equal, and OrderBy then keeps their declaration order. So FromObjectOrderIndependent holds of the ordinal sort only.
- Settings.SnapshotSettings.Apply: the message writer is not a property of `Config`, so an initializer cannot replace it. It is the `messageWriter` field of the settings object, which Apply keeps.
- Settings.SnapshotSettings.Apply: the group is assigned after every other property. A C# initializer that sets a blank group before other properties throws there, and the later assignments are not made. The model assigns them all before it reports the error.

## Findings

| source | as written | input that shows it | evidently intended | confidence | as-written member | corrected member |
|---|---|---|---|---|---|---|
| src/SnapTest/Snapshot.cs:35 | plain-text reading of an ungrouped snapshot is decided from the unfiltered actual (a string or a Guid), while writing uses the filtered value | a dictionary `{Name: "Flagstaff"}` with IncludedPaths `["Name"]` on a forced refresh writes `Flagstaff` plus a newline; the next comparison parses that text as JSON and raises the parse error | read as text exactly when the filtered value is an ungrouped string, which is how it was written; the snapshot is still read before a filter error is reported, as the code does at lines 36-38 | not executed | EngineProperties.AsWrittenRefreshThenFails (with Engine.CompareAsWritten) | EngineProperties.CorrectedRefreshThenMatches (with Engine.CompareCorrected) |
| src/SnapTest/SnapshotValue.cs:120 | the `Parent != null` guard skips a removed array element, but a removed member's value keeps its detached JProperty as parent, so a member matched twice is removed twice | ExcludedPaths `["Name", "Name"]` on the Flagstaff object: the second `Remove()` of the parentless JProperty throws InvalidOperationException | each matched token is removed once, whatever the repetitions among the matches | not executed | JsonEdit.RepeatedMemberExclusionFails (with JsonEdit.DetachAsWritten, JsonEdit.DetachAsWrittenFails) | JsonEdit.DetachRemovesMatched (with JsonEdit.Detach) |
| src/SnapTest/Snapshot.Json.cs:60-65 | the same guard in the JToken generation's removal loop: after `ToList()`, `Where(_ => _.Parent != null)` is checked as the loop runs, so a member matched twice is removed twice | ExcludedPaths `["Name", "Name"]` on any object with a `Name` member, in the JToken generation: the second removal throws InvalidOperationException | each matched token is removed once | not executed | Filtering.ExcludeMemberTwice (with PathFilter.ExcludePathsAsWritten) | PathFilter.RepeatedPathFails (with PathFilter.ExcludePaths, Filtering.RemoveExcludedPaths) |
| src/SnapTest/Middleware/JsonSerializerMiddlware.cs:60-64 | the same guard in the middleware's removal loop, checked lazily as the loop runs over the collected list | ExcludedPaths `["Name", "Name"]` on any object with a `Name` member, in the middleware generation: the second removal throws InvalidOperationException | each matched token is removed once | not executed | Filtering.ExcludeMemberTwice (with PathFilter.ExcludePathsAsWritten) | PathFilter.RepeatedPathFails (with PathFilter.ExcludePaths, PathFilter.DetachAll) |
