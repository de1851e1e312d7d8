# jest-run-it, modelled in Dafny

jest-run-it is a VS Code extension. It puts "run" and "debug" code lenses
above every `describe` and `it` block of a Jest test file, plus an "update
snapshots" lens when a snapshot matcher lies inside the block. It also offers a tree view of the file's tests. When a lens is
clicked, the extension either builds a shell command for the integrated
terminal or builds a launch record for the Node debugger.

This project models the logic behind those actions. Each entry is listed
with its module:

- `Commands` (src/commands.ts)
  - `RunTest`: the shell command that `runTest` sends. It is built step by
    step, like the source, and proved equal to the trimmed, space-joined
    run words (`RunWords`).
  - `DebugTest`: the launch record of `debugTest`. Its argument list is
    built by appends, like the source, and proved equal to `DebugArgs`;
    the list ends in `--runInBand`.
  - `ConvertEnvVariablesToObj`: the parse of the environment string into
    an object. It splits on spaces, drops empty tokens, splits each token
    on `=`, and folds left, so the last occurrence wins.
- `Helper` (src/helper.ts): the choice of a runner path for the operating
  system.
- `CodeLens` (src/jestDoItCodeLensProvider.ts)
  - `HasSnapshots`: the inclusive (line, column) containment scan.
  - The lens and command builders.
  - `GenCodeLens`: the recursive pre-order walk. It pushes onto a shared
    array, modelled as a class.
  - `ProvideCodeLenses`: the provider. It rejects an unsaved document and
    swallows a parse failure.
- `TestsExplorer` (src/testsExplorerDataProvider.ts): `getChildren`, the
  pattern fallback, and the reaction to a change of editor.
- `Text`: the JavaScript string operations the source relies on, and
  one notion of the model's own.
  - `split` with a one-character separator, where `"".split(' ')` is
    `[""]`.
  - `trim`, which removes ECMAScript white space and line terminators.
  - `Join`: words separated by single spaces. The source has no `join`
    call; `Join` is how the model states the text that `runTest` builds
    with a template literal and `+=`.
- `ParsedTree`: the output of the `jest-editor-support` parser. It is a
  tree of nodes with a type, a name, a file, a start, an end and an
  optional child list. The snapshot-matcher locations come with it.
- `Constants` (src/constants.ts) and `Wrappers` (`Option`, standing for
  JavaScript's `undefined`).

Host services are parameters of the model:

- the settings, given as one `Config` record or as `Labels`;
- `process.platform`;
- the Windows debug default path;
- `quoteTestName`, a function of the value and an optional mode;
- the glob matcher;
- whether an editor is active;
- the parse result.

An unset string setting is `""` and an unset list is `[]`. For a string
both values take the same "falsy" branch. For a list the branch differs:
`[]` is truthy, so `runTest` and `debugTest` enter the `forEach` and run
it zero times. The outcome is the same as skipping it.

The behaviour of the code, stated where a reader might expect otherwise:

- **Environment string.** `convertEnvVariablesToObj`
  (src/commands.ts:11-21) works as follows:
  1. It splits on every space, so quotes are ordinary characters
     (`QuotesAreNotSpecial`).
  2. Tokens keep their order in the string (`TokensAppend`).
  3. For a repeated key, the last value wins (`RepeatedKeyKeepsLast`).
  4. A token without `=` maps to `undefined` (`KeyAndValue`, `BareKey`).
  5. Text after a second `=` is dropped.
  6. A `__proto__` key never becomes an own property: assigning a string or
     `undefined` to it calls the prototype setter, which ignores the
     value. The model therefore skips that key (`Assign`).
- **Debug arguments.** `debugTest` quotes the file with the default mode,
  passes the test name with mode `'none'`, and includes `-c <config>`
  (src/commands.ts:70-82).

## Model

| member | source | states |
|---|---|---|
| Text.Split | src/commands.ts:12 | `split` with a one-character separator: at least one piece, no piece holds the separator, and joining the pieces with it gives back the input |
| Text.SplitJoin | src/commands.ts:12 | splitting undoes joining separator-free pieces |
| Text.SplitAppend | src/commands.ts:12 | splitting `a`, a separator and `b` gives the pieces of `a` followed by the pieces of `b` |
| Text.SplitWithoutSep | src/commands.ts:15 | a token without `=` splits to itself alone |
| Text.SplitHead | src/commands.ts:15 | a separator-free head and a separator split off as the first piece |
| Text.JoinChars | src/commands.ts:12 | every character of a joined string is the separator or lies in one of the pieces |
| Text.JoinContainsParts | src/commands.ts:12 | every character of each piece lies in the joined string |
| Text.JoinSnoc | src/commands.ts:47-49 | appending one word to a join adds one separator and the word |
| Text.TrimStart | src/commands.ts:56 | drops exactly the leading whitespace: a suffix, all dropped characters whitespace, result not starting with whitespace |
| Text.TrimEnd | src/commands.ts:56 | drops exactly the trailing whitespace: a prefix, all dropped characters whitespace, result not ending with whitespace |
| Text.Trim | src/commands.ts:56 | `trim()`: a slice of the input with only whitespace around it, neither starting nor ending with whitespace |
| Text.TrimStartAfterWhitespace | src/commands.ts:56 | a leading run of whitespace makes no difference to `trimStart` |
| Text.TrimAfterWhitespace | src/commands.ts:56 | a leading run of whitespace makes no difference to `trim` |
| Text.TrimClean | src/commands.ts:56 | a string with no whitespace at either end is its own trim |
| Commands.NonEmpty | src/commands.ts:13 | `filter(v => !!v)`: every kept part is non-empty, and the kept values are exactly the non-empty values of the input |
| Commands.NonEmptyCounts | src/commands.ts:13 | the filter drops every empty part and keeps each non-empty value exactly as often as it occurs in the input |
| Commands.NonEmptyAppend | src/commands.ts:13 | the filter keeps order and repeats: filtering a concatenation is the concatenation of the filtered sides |
| Commands.Tokens | src/commands.ts:12-13 | every token is non-empty and holds no space |
| Commands.TokensAppend | src/commands.ts:12-13 | the tokens of `a + " " + b` are the tokens of `a` followed by those of `b`, so tokens keep their string order |
| Commands.KeyOf | src/commands.ts:15 | the key is a prefix of the token holding no `=`, followed in the token by `=` or by nothing |
| Commands.ValueOf | src/commands.ts:15 | the value is `undefined` exactly when the token holds no `=`, and otherwise holds no `=` itself |
| Commands.Assign | src/commands.ts:16 | `acc[key] = val` sets the token's key to its value and leaves every other name as it was; a `__proto__` key leaves the object unchanged |
| Commands.Collect | src/commands.ts:14-18 | the reduce never creates a `__proto__` key, and every key it creates is carried by some token |
| Commands.ConvertEnvVariablesToObj | src/commands.ts:11-21 | no key is `__proto__`, and no key holds a space or `=` |
| Commands.KeyAndValue | src/commands.ts:15 | the key is the text before the first `=`; the value is absent exactly when the token holds no `=`, and is otherwise the text between the first `=` and a following `=` or the token's end |
| Commands.NoTokensIffOnlySpaces | src/commands.ts:12-13 | the filtered split is empty exactly when the string is empty or all spaces |
| Commands.CollectKeys | src/commands.ts:14-18 | after the reduce, a name is a key exactly when some token carries it and it is not `__proto__` |
| Commands.CollectLastWins | src/commands.ts:14-18 | the value under a name is that of the last token carrying it |
| Commands.ConvertEntries | src/commands.ts:11-21 | `convertEnvVariablesToObj`: keys are the token names other than `__proto__` (both directions); each value is the last token's value |
| Commands.BlankEnvIsEmpty | src/commands.ts:11-21 | an empty or all-space string converts to `{}` |
| Commands.TwoTokens | src/commands.ts:12-13 | two space-free words around one space are the two tokens |
| Commands.SimplePair | src/commands.ts:15 | `k=v` without another `=` has key `k` and value `v` |
| Commands.BareKey | src/commands.ts:15 | a token without `=` is a key whose value is `undefined` |
| Commands.CollectTwo | src/commands.ts:14-18 | the reduce over two tokens is two assignments in order |
| Commands.QuotesAreNotSpecial | src/commands.ts:11-21 | `K="a b"` gives key `K` with value `"a` and key `b"` with value `undefined` |
| Commands.RepeatedKeyKeepsLast | src/commands.ts:11-21 | `K=x K=y` gives `{K: y}` |
| Commands.RunJestPath | src/commands.ts:28 | the configured path when set, else the default path; never empty |
| Commands.DebugJestPath | src/commands.ts:60-64 | the configured path when set, else the Windows debug default exactly on `win32`, else the default path |
| Commands.RunAndDebugPaths | src/commands.ts:60-64 | run and debug resolve the same runner path exactly when a path is configured, the platform is not `win32`, or the two defaults coincide |
| Text.JoinAppend | src/commands.ts:35-50 | joining more parts after at least one adds the separator and the extra parts joined, or nothing when there are none |
| Commands.FlagJoin | src/commands.ts:37-42 | appending a flag and its value to the words appends ` flag value` to their join |
| Commands.NameFlagJoin | src/commands.ts:37-39 | the `-t` words join to the ` -t <quoted name>` text the command gains, or nothing without a name |
| Commands.ConfigFlagJoin | src/commands.ts:40-42 | the `-c` words join to the ` -c <path>` text the command gains, or nothing without a path |
| Commands.JoinThree | src/commands.ts:35 | the command's first three words joined by single spaces |
| Commands.HeadCommand | src/commands.ts:35-45 | the command before the options is the prefix, runner and quoted file, then ` -t`, ` -c` and ` -u` for the flags that apply, and equals the join of the corresponding words |
| Commands.AppendOptions | src/commands.ts:46-50 | the options loop appends each option after one space, in order: the result joins the head words followed by the options |
| Commands.RunTest | src/commands.ts:23-57 | the command sent is the trimmed, space-joined run words: prefix, runner, quoted file, `-t` name, `-c` path, `-u`, options, in that order |
| Commands.BlankPrefixIsDropped | src/commands.ts:35-56 | with a blank environment prefix the trimmed command is the other words alone, with no leading space |
| Commands.UpdateFlagPlacement | src/commands.ts:43-50 | asking for a snapshot update inserts `-u` right before the configured options and changes nothing else |
| Commands.DebugTest | src/commands.ts:58-97 | the launch record: arguments as `DebugArgs` (quoted file first, `--runInBand` last), program `${workspaceFolder}/` plus the debug runner path, `env` the conversion of the environment string, fixed name, request, type, console and console options |
| Commands.RunAndDebugAgree | src/commands.ts:70-82 | the debug arguments are the run words (without `-u`) after the prefix and runner, with the name quoted in mode `'none'`, then `--runInBand` |
| Commands.RunAndDebugAgreeOnPlainNames | src/commands.ts:70-82 | when both quotings of the name coincide, the debug arguments are exactly those run words plus `--runInBand` |
| Helper.IsWindows | src/helper.ts:52-54 | true exactly when the platform is `win` followed by any text |
| Helper.IndexOf | src/helper.ts:34 | `indexOf`: -1 exactly when the name is absent, otherwise the first position holding it |
| Helper.IsMacOS | src/helper.ts:40-47 | true exactly for `darwin` and `freebsd` |
| Helper.IsLinux | src/helper.ts:27-35 | true exactly for `aix`, `android` and `linux` |
| Helper.DefaultJestPathForOS | src/helper.ts:9-21 | one of the three paths: Windows for a `win…` platform, else macOS for darwin/freebsd, else Linux |
| Helper.FamiliesDisjoint | src/helper.ts:27-54 | no platform is in two of the Windows, macOS and Linux families |
| Helper.PathForEachFamily | src/helper.ts:9-21 | each family gets its own path, and a platform in no family gets the Linux path |
| Helper.KnownPlatforms | src/helper.ts:9-54 | the path chosen for each of `win32`, `darwin`, `freebsd`, `linux`, `aix`, `android`, `openbsd`, `sunos`, `cygwin`, `haiku`, `netbsd`, and for an empty name |
| CodeLens.Title | src/jestDoItCodeLensProvider.ts:25 | `label ? label : default`: the label when set, else the default, never empty |
| CodeLens.RunCommand | src/jestDoItCodeLensProvider.ts:18-29 | command `jestRunItCodeLens.runTest`, tooltip `Run test`, arguments `[file, name]`, title the label or the running-man emoji |
| CodeLens.DebugCommand | src/jestDoItCodeLensProvider.ts:31-42 | command `jestRunItCodeLens.debugTest`, tooltip `Debug test`, arguments `[file, name]`, title the label or the bug emoji |
| CodeLens.UpdateSnapshotsCommand | src/jestDoItCodeLensProvider.ts:44-57 | command `jestRunItCodeLens.updateSnapshots`, tooltip `Update snapshots`, arguments `[file, name]`, title the label or the thumbs-up emoji |
| CodeLens.CreateLensAt | src/jestDoItCodeLensProvider.ts:59-89 | run and debug lenses, plus an update lens when asked, all on the empty range at (line − 1, column − 1), all with the same arguments |
| CodeLens.HasSnapshots | src/jestDoItCodeLensProvider.ts:91-110 | true exactly when some snapshot call lies in the range, bounds included, comparing line then column; false for an empty list |
| CodeLens.BoundsAreInclusive | src/jestDoItCodeLensProvider.ts:96-105 | a snapshot call sharing a bound with the range, or spanning it exactly, counts as inside |
| CodeLens.SnapshotsPropagateOutward | src/jestDoItCodeLensProvider.ts:91-110 | a snapshot call inside a range is inside every enclosing range |
| CodeLens.FullName | src/jestDoItCodeLensProvider.ts:114 | the title alone under an empty prefix; otherwise the prefix, one space and the title; always ending with the title |
| CodeLens.NodeLenses | src/jestDoItCodeLensProvider.ts:112-129 | a block's walk starts with two lenses on the empty range at its 0-based start, both with the arguments `[file, full name]` |
| CodeLens.LensArray.constructor | src/jestDoItCodeLensProvider.ts:134 | the array starts empty |
| CodeLens.LensArray.PushAll | src/jestDoItCodeLensProvider.ts:124 | `push(...lenses)` appends the lenses in order |
| CodeLens.GenCodeLens | src/jestDoItCodeLensProvider.ts:112-129 | appends the node's pre-order lenses after what the array held, and returns that same array |
| CodeLens.GenChildLenses | src/jestDoItCodeLensProvider.ts:126 | the walk of each child in turn, under the block's full name, appended in child order |
| CodeLens.GenRootLenses | src/jestDoItCodeLensProvider.ts:151 | each root child is walked on a fresh array with an empty prefix, and its lenses are pushed after the earlier children's, in child order |
| CodeLens.ProvideCodeLenses | src/jestDoItCodeLensProvider.ts:131-158 | rejected exactly for an unsaved document; no lenses after a parse failure; otherwise the lenses of each root child walked with an empty prefix, in order |
| CodeLens.NodeLensCount | src/jestDoItCodeLensProvider.ts:112-129 | a walk yields between two and three lenses per reached block, and exactly two per block when no snapshot call is known |
| CodeLens.ChildrenLensCount | src/jestDoItCodeLensProvider.ts:126 | the same bounds for the walk of a node's children |
| CodeLens.NodeLensesUnder | src/jestDoItCodeLensProvider.ts:114 | every lens of a walk is on an empty range, with two arguments, its name extending the block's full name |
| CodeLens.ChildrenLensesUnder | src/jestDoItCodeLensProvider.ts:126 | every lens below a block names a test that begins with the block's full name and a space, or with nothing extra when that name is empty (`Qualifier`) |
| CodeLens.OtherNodesYieldNothing | src/jestDoItCodeLensProvider.ts:113 | a node that is not a `describe` or `it` block yields nothing, and its descendants are not visited |
| CodeLens.NodeLensesStartWithRun | src/jestDoItCodeLensProvider.ts:75 | every non-empty walk starts with a run lens |
| CodeLens.ChildrenLensesStartWithRun | src/jestDoItCodeLensProvider.ts:126 | the walk of a node's children, when non-empty, starts with a run lens |
| CodeLens.BlockLensesFirst | src/jestDoItCodeLensProvider.ts:113-126 | a block's run and debug lenses come first (pre-order); an update lens follows exactly when a snapshot call lies in the block |
| TestsExplorer.NewTestable | src/testsExplorerDataProvider.ts:116-130 | a tree item's tooltip is its test name and its context value is `testable` |
| TestsExplorer.StateFor | src/testsExplorerDataProvider.ts:81-83 | an item is a leaf exactly for an `it` node; otherwise it is expanded, never collapsed |
| TestsExplorer.ChildItem | src/testsExplorerDataProvider.ts:75-84 | the item takes the child's title as label, its file and children, is a leaf (`None`) for an `it` and `Expanded` otherwise, and is named the parent's name, a space and the title (the title alone without a parent) |
| TestsExplorer.GetChildren | src/testsExplorerDataProvider.ts:66-113 | `null` without an editor or when the list is absent (an empty list resolves to none); otherwise one item per child in order, with the child's title, file and children, a leaf (`None`) for an `it` and `Expanded` otherwise, named `parent + ' ' + title` (the title alone at the top level) |
| TestsExplorer.NamesAgreeWithLenses | src/testsExplorerDataProvider.ts:76-78 | a child item's name equals the lens naming exactly when the parent's name is non-empty |
| TestsExplorer.TopLevelNamesAgreeWithLenses | src/testsExplorerDataProvider.ts:98-100 | top-level items are named as the lenses name top-level blocks |
| TestsExplorer.ExpandTopLevelItem | src/testsExplorerDataProvider.ts:72-108 | expanding a top-level item lists its children named `title + ' ' + child title` |
| TestsExplorer.TestMatchPatterns | src/testsExplorerDataProvider.ts:34-40 | the setting when it is an array, else the two default globs; empty only for an empty array |
| TestsExplorer.OnActiveEditorChanged | src/testsExplorerDataProvider.ts:29-60 | no editor sets the context to false; a `file` editor sets it to whether the path matches the patterns, and refreshes exactly when it does; other schemes do nothing |

## Left out

- Terminal dispatch: `getTerminal`, `createTerminal`, `show` and `sendText` are left out. The model ends with the command text.
- Debugger dispatch: `startDebugging` and the workspace-folder lookup are left out. The model ends with the launch record.
- `quoteTestName` is a parameter. src/commands.ts:9 imports `quoteTestName` from src/extension.ts, which does not define it; its escaping and quoting rules are therefore not part of this model.
- The `jest-editor-support` parser and snapshot reader are inputs (`ParsedTree`, `ParseOutcome`). These include custom snapshot matchers and any failure inside `getChildren`'s own `parse` call.
- `getConfig`, src/config.ts, src/explorerDataProvider.ts and src/extension.ts are not part of this model. The settings come in as records.
- `micromatch.isMatch` is a parameter.
- `setContext`, `refresh` and the event emitter are reduced to the `EditorReaction` value.
- `getTreeItem` returns its argument; it has no logic to model.
- `DEFAULT_JEST_DEBUG_PATH_WINDOWS` is not defined in src/constants.ts. It is part of the `Host` parameter.
- Promises and `async` are left out. A rejection is the `Rejected` value. A failure of the parser or the snapshot reader, caught and logged by the source, becomes the `ParseFailed` outcome with no lenses; those calls run before any lens is pushed. An exception thrown later, while walking a root child, is not modelled: the source would return the lenses pushed for the earlier children.
- Commands.RunTest: a setting that is `undefined` rather than empty is not modelled. The source would interpolate the word `undefined` into the command, and `convertEnvVariablesToObj` would throw. src/config.ts declares no keys for the CLI options or the environment string, so the model takes both as present.
- CodeLens.CreateLensAt: `vscode.Range`'s rejection of negative coordinates is host behaviour and is not modelled. The range is computed exactly as the source computes it.
- TestsExplorer.GetChildren: the `type === 'it'` test compares the parser's type string. The model compares the `NodeType` value.
