# evm-utilities core, modelled in Dafny

This project models the core of evm-utilities, a small web toolbox for EVM
developers, and proves properties of that model. The core has four parts:

- **The Foundry run route** (`POST /api/run`). It copies the `foundry`
  template project into a scratch directory and skips `out`, `cache`,
  `broadcast` and `.git` at every depth. It picks the `forge`/`cast`
  binaries and validates a `TRACE` or `SIMULATE` request. For a simulation
  it writes the test contract into the copy. It then spawns the tool with
  its command line, working directory and environment. When the child
  exits, it removes the scratch directory.
- **The simulation test renderer** (`generateSimulationTest`). A pure
  template that renders the simulation form's fields as a Foundry test
  contract.
- **The unit converter page.** It keeps one value in wei. Typing into the
  Wei, Gwei or Ether field rescales the input to wei. Each field shows the
  stored wei divided by its power of ten, rounded to 20 fractional digits.
- **The signature lookup page.** It classifies the query as a 4-byte
  selector, a 32-byte event topic or a free-text search. It builds the
  request to the signature database and flattens the answer into table
  rows. The table is paged in pages of 50 rows and keyed by `hash-name`.

Modules:

- `Common`:
  - substring containment, over which the rendered contract is reasoned about;
  - `||`-style defaults (`OrElse`);
  - `join`;
  - the first index of a character.
- `Templates`:
  - the test-contract renderer, written as a concatenation of pieces;
  - lemmas on what the contract contains for which fields.
- `Workspace`:
  - the template tree (`Entry`) and the destination file system;
  - the class `FileSystem`, with fields `nodes` and `warnings`;
  - `copyRecursiveSync` as the method `CopyRecursive`, with its loop over
    a directory's children. It is proved against the specification
    function `Copy`, which says which path receives which node;
  - the recursive removal of the scratch directory.
- `RunRoute`:
  - the request handler. The specification function `Handle` is the whole
    effect of a request: the messages sent, how the stream ends, the file
    system after it and the `chmod` warnings. The method `Post` is proved
    equal to `Handle`;
  - the lemmas on `Handle`: binary priority, validation, command lines,
    the written test file, and the scratch directory being gone after the
    child exits.
- `Converter`:
  - exact decimals, unit scaling and the 20-place rounding of division;
  - the input cleaning `replace(/[^0-9.-]/g, '')`;
  - a parser for the plain decimal notation and the `toFixed()` rendering;
  - the page's state as a class with `HandleInputChange` and
    `CalculateValue`.
- `Signatures`:
  - ECMAScript `trim`;
  - the query classification;
  - hex rendering of selectors and topics;
  - flattening of the answer, proved for the loop (`PushRows`) and for
    the specification function (`RowsOf`/`Flattened`);
  - the table's paging and row keys;
  - the page's state as a class with `HandleSearch`.

The environment is passed in as parameters:

- the working directory, `HOME` and `PATH`;
- the randomly named scratch directory;
- which binary paths exist;
- the paths on which `chmod` fails;
- the template tree, or `None` when it does not exist;
- the answer of the signature database, or `None` when the fetch fails.

Two behaviours of the code are worth noting:

- On validation errors and unknown operation types the code closes the
  stream without removing the scratch copy. When the test file cannot be
  written it ends with a system error, and the copy's root is left in
  place as well. `RunRoute.RejectionKeepsCopy` states both.
- The funding block of the test contract uses the raw `sender`, while the
  call block uses the `address(0)` default. `Templates.DealUsesRawSender`
  states this.

## Model

| member | source | states |
|---|---|---|
| Templates.GenerateSimulationTest | src/lib/templates.ts:14-83 | the rendered test contract: the preamble with the fork, the funding block and the execution block; the `Templates` lemmas below state what it contains |
| Templates.DealBlockEmptyIff | src/lib/templates.ts:27-37 | the funding block is empty if and only if `shouldDealToken` is off |
| Templates.NoDealIgnoresTokenFields | src/lib/templates.ts:27-37 | with dealing off, the token address, spender and amount do not affect the rendered contract at all |
| Templates.DealCallRendered | src/lib/templates.ts:28-29 | with dealing on, the contract contains `deal(token, sender, amount)` with the amount defaulted to `0` when empty |
| Templates.ApproveGuardedByPrank | src/lib/templates.ts:31-36 | with dealing on, the approve call is inside a non-zero-spender guard, between `vm.startPrank(sender)` and `vm.stopPrank()` |
| Templates.DealUsesRawSender | src/lib/templates.ts:27-40 | the funding block uses the raw sender: an empty sender renders `deal(token, , amount)` and `vm.startPrank()` |
| Templates.CallBlockDefaults | src/lib/templates.ts:39-71 | the call block guards on, pranks as and calls with the sender, target and value, each defaulted (`address(0)`, `address(0)`, `0`), and embeds the calldata verbatim |
| Templates.GuardedCall | src/lib/templates.ts:64-80 | the `if` on a non-zero sender and everything inside it, as a concatenation of pieces; `GuardedCallText` writes it out |
| Templates.GuardedCallText | src/lib/templates.ts:64-80 | the guard is followed, in this order and before its closing brace, by the prank, the log of the sender, the calldata line, the call, the success and failure logs and `vm.stopPrank()` |
| Templates.GuardedInBlock | src/lib/templates.ts:62-81 | the execution block holds the guarded call with the defaulted fields |
| Templates.CallGuardedBySender | src/lib/templates.ts:39-80 | the contract holds the whole guarded call: the prank, calldata, call, outcome logs and `vm.stopPrank()` all lie inside `if (sender != address(0)) {…}`, with the defaults filled in |
| Templates.EmptySenderSkipsCall | src/lib/templates.ts:40-80 | an empty sender renders the guard `if (address(0) != address(0))` with the prank, calldata, call, logs and `vm.stopPrank()` all inside it, so none of them runs |
| Templates.RpcUrlEmbedded | src/lib/templates.ts:56-58 | `setUp` forks the network at the given RPC URL |
| Templates.DeclaresTestEntryPoint | src/lib/templates.ts:60 | the contract declares `function testSimulation() public` |
| Workspace.FileSystem.constructor | src/app/api/run/route.ts:10-34 | a file system starts with the given nodes and no warnings |
| Workspace.FileSystem.CopyRecursive | src/app/api/run/route.ts:10-34 | the copy adds exactly `Copy(src, dest)` to the file system and appends exactly `Warnings(src, dest)` |
| Workspace.FileSystem.CopyEachChild | src/app/api/run/route.ts:22-24 | copying the children in order adds exactly the union of their copies, with their warnings in order |
| Workspace.FileSystem.RemoveRecursive | src/app/api/run/route.ts:158-163 | the forced recursive removal leaves nothing at or below the root and keeps everything else |
| Workspace.CopyAt | src/app/api/run/route.ts:15-33 | a path `dest + rel` is written if and only if no component on the way is excluded and the template has an entry at `rel`; a directory gives a directory, and a file gives its content with mode `0o666`, or its own mode where `chmod` fails |
| Workspace.CopyUnder | src/app/api/run/route.ts:18-24 | every path the copy writes lies at or below the destination |
| Workspace.NothingExcludedCopied | src/app/api/run/route.ts:15-16 | no written path has an excluded name at or below the destination, at any depth |
| Workspace.WarningsSound | src/app/api/run/route.ts:28-32 | the warnings are exactly the copied regular files on which `chmod` failed: every warning is such a file, and every such file is warned about |
| Workspace.Copy | src/app/api/run/route.ts:10-34 | the nodes `copyRecursiveSync` writes, as a value: nothing for an excluded name, a directory and its children's copies for a directory, one file for a file; its properties are `CopyAt`, `CopyUnder`, `NothingExcludedCopied` and `CopyStaysInside` |
| Workspace.Warnings | src/app/api/run/route.ts:26-32 | the paths the copy logs a `chmod` warning for, in copy order; `WarningsSound` characterises them |
| Workspace.VacantCompatible | src/app/api/run/route.ts:18-26 | copying into a vacant destination never meets a file where it needs a directory, or the reverse |
| Workspace.RemoveTree | src/app/api/run/route.ts:160 | the removal leaves the root vacant, keeps every node outside it and adds nothing |
| Workspace.CopyStaysInside | src/app/api/run/route.ts:10-34 | the copy changes nothing outside the destination |
| RunRoute.HomeDir | src/app/api/run/route.ts:77 | the home directory is `HOME` when it is set and non-empty, else `/root` |
| RunRoute.BinaryPriority | src/app/api/run/route.ts:80-89 | the project's `bin` wins when it holds `forge`; then the user's `~/.foundry/bin`; no directory is chosen exactly when neither holds `forge` |
| RunRoute.BinaryDirOnlyAsksForForge | src/app/api/run/route.ts:83-89 | the choice depends only on whether the two `forge` paths exist |
| RunRoute.LocateBinaries | src/app/api/run/route.ts:80-89 | `forge` and `cast` are both taken from the chosen directory, or are the bare names |
| RunRoute.ChosenForgeExists | src/app/api/run/route.ts:83-89 | a chosen directory holds `forge`, and `cast` is a path exactly when a directory was chosen |
| RunRoute.SearchPathPrepends | src/app/api/run/route.ts:142 | the child's `PATH` is the project bin, then the user bin, then the inherited `PATH` unchanged |
| RunRoute.MissingFieldsExactly | src/app/api/run/route.ts:106-107 | a field is reported missing if and only if it is required and absent or empty |
| RunRoute.SimulateMissingInOrder | src/app/api/run/route.ts:106-109 | the missing fields are listed in the order sender, to, calldata |
| RunRoute.SimulateRunsRenderedTest | src/app/api/run/route.ts:127 | `forge test --mt` selects the test function that the rendered contract declares |
| RunRoute.WriteFile | src/app/api/run/route.ts:123 | writing the test file creates or replaces exactly that file with the content, keeps an existing file's mode, and touches no other path |
| RunRoute.MissingTemplateStops | src/app/api/run/route.ts:59-64 | without the template directory the handler sends one error, changes nothing and spawns nothing |
| RunRoute.RejectionKeepsCopy | src/app/api/run/route.ts:92-134 | a request closed after the copy leaves exactly the copied file system, and every outcome other than a spawn, including the write error, leaves the scratch directory on disk |
| RunRoute.SpawnOnlyWhenValid | src/app/api/run/route.ts:92-146 | a child is spawned only for a valid `TRACE` or `SIMULATE` request, in the scratch directory, with the resolved `HOME` and the prefixed `PATH` |
| RunRoute.TraceCommand | src/app/api/run/route.ts:92-102 | a valid trace spawns `cast run <txHash> --rpc-url <rpcUrl>` after the two banner lines |
| RunRoute.TraceNeedsHashAndUrl | src/app/api/run/route.ts:93-97 | a trace without a transaction hash or RPC URL sends one error and closes |
| RunRoute.SimulateReportsMissing | src/app/api/run/route.ts:104-112 | a simulation missing a required field reports exactly the missing fields and closes |
| RunRoute.SimulateWritesScript | src/app/api/run/route.ts:114-129 | a valid simulation whose test file can be written is spawned, after writing `scriptContent` to `test/Simulation.t.sol` under a `test` directory and leaving every other copied node as it was and adding no other path, and runs `forge` with the fixed arguments |
| RunRoute.ValidSimulationSpawns | src/app/api/run/route.ts:104-146 | a simulation with all required fields and a script, whose test file can be written, sends the two announcements and spawns the resolved `forge` with `test --mt testSimulation -vvvv --color always` in the scratch directory, with the resolved `HOME` and the prefixed `PATH` |
| RunRoute.BlockedSimulationFails | src/app/api/run/route.ts:114-123 | a valid simulation whose test file cannot be written, or that has no script, ends in a system error after announcing the write |
| RunRoute.UnknownTypeRejected | src/app/api/run/route.ts:130-133 | any other request type sends the unknown-type error and closes, with the template copied and its warnings logged |
| RunRoute.Handle | src/app/api/run/route.ts:36-134 | the handler up to the spawn, as a value: the template check, the copy, then command preparation; `MissingTemplateStops`, `RejectionKeepsCopy`, `SpawnOnlyWhenValid` and `ExitRestoresDisk` state what it does |
| RunRoute.Prepare | src/app/api/run/route.ts:76-134 | binary location and the dispatch on the request type; `TraceCommand`, `TraceNeedsHashAndUrl`, `UnknownTypeRejected` and `PrepareStaysInside` state what it does |
| RunRoute.Simulate | src/app/api/run/route.ts:104-129 | the `SIMULATE` branch: validation, `mkdir` of `test`, the write and the command; `SimulateReportsMissing`, `ValidSimulationSpawns`, `BlockedSimulationFails` and `SimulateWritesScript` state what it does |
| RunRoute.MissingFields | src/app/api/run/route.ts:106-107 | the `filter` of the required fields that are absent or empty; `MissingFieldsExactly` and `SimulateMissingInOrder` characterise it |
| RunRoute.SearchPath | src/app/api/run/route.ts:142 | the child's `PATH`; `SearchPathPrepends` states its form |
| RunRoute.SimulateStaysInside | src/app/api/run/route.ts:114-123 | the simulation branch changes nothing outside the scratch directory |
| RunRoute.PrepareStaysInside | src/app/api/run/route.ts:91-134 | command preparation changes nothing outside the scratch directory |
| RunRoute.ExitRestoresDisk | src/app/api/run/route.ts:155-163 | after a spawned child exits and the scratch directory is removed, the file system is exactly what it was before the request |
| RunRoute.Post | src/app/api/run/route.ts:36-146 | the handler's messages, outcome and new file system are those of `Handle` |
| RunRoute.PrepareCommand | src/app/api/run/route.ts:76-134 | binary location and command preparation are those of `Prepare` |
| RunRoute.PrepareSimulation | src/app/api/run/route.ts:104-129 | the simulation branch is that of `Simulate` |
| RunRoute.CopiedRootIsDir | src/app/api/run/route.ts:18-21 | copying the template directory leaves a directory at the scratch path |
| Converter.ScaleDownUndoesScaleUp | src/app/converter/page.tsx:37-49 | dividing by the factor's power of ten undoes multiplying by it |
| Converter.ConvertBetweenUnits | src/app/converter/page.tsx:37-49 | a value entered in one unit shows in a smaller unit multiplied by ten to the difference of their factors |
| Converter.Clean | src/app/converter/page.tsx:28 | `value.replace(/[^0-9.-]/g, '')`, character by character; `CleanKeepsAllowed`, `CleanConcat` and `CleanIdempotent` characterise it |
| Converter.ParseDecimal | src/app/converter/page.tsx:31-32 | `new BigNumber(cleanValue)` on cleaned text, `None` for NaN; `ParseRender` states that it reads plain notation back |
| Converter.RoundHalfUp | src/app/converter/page.tsx:48 | `dividedBy`'s rounding of the quotient to 20 fractional digits, half up; `RoundNearest` and `RoundExact` characterise it |
| Converter.RoundNearest | src/app/converter/page.tsx:48 | the rounded amount has 20 fractional digits, lies within half a unit of the last digit of the exact quotient, moves a tie away from zero and keeps the sign; an amount with at most 20 fractional digits is kept |
| Converter.RoundExact | src/app/converter/page.tsx:48 | rounding does not change the value of an amount that can be written with at most 20 fractional digits |
| Converter.RoundingExamples | src/app/converter/page.tsx:48 | 0.123 wei shown in ether rounds to 12 · 10^-20, and 10^-21 wei shown in wei rounds to 0 |
| Converter.ToFixed | src/app/converter/page.tsx:38-53 | `toFixed()` text is never empty and parses back to a number of the same value |
| Converter.Converter.CalculateValue | src/app/converter/page.tsx:44-57 | a field shows the empty string exactly when the stored amount is cleared, and otherwise text that parses to the stored wei divided by ten to the factor and rounded to 20 fractional digits, which is the exact quotient when that has at most 20 fractional digits |
| Converter.CleanKeepsAllowed | src/app/converter/page.tsx:28 | the cleaned input has only digits, `.` and `-`, and an input of only those is unchanged |
| Converter.CleanConcat | src/app/converter/page.tsx:28 | cleaning works character by character: the cleaning of a concatenation is the concatenation of the cleanings |
| Converter.CleanIdempotent | src/app/converter/page.tsx:28 | cleaning twice is cleaning once |
| Converter.ParseRender | src/app/converter/page.tsx:38-53 | the plain decimal text of a value parses back to that value |
| Converter.NormalizeSameValue | src/app/converter/page.tsx:53 | dropping trailing fraction zeros keeps the value |
| Converter.ReadBack | src/app/converter/page.tsx:37-53 | a value with at most 20 significant fractional digits, scaled to wei and shown in the same unit, reads back as the same value |
| Converter.DisplayIsClean | src/app/converter/page.tsx:28-53 | a displayed value passes through the input cleaning unchanged |
| Converter.Converter.constructor | src/app/converter/page.tsx:18 | the page starts with one gwei, 1000000000 wei |
| Converter.Converter.HandleInputChange | src/app/converter/page.tsx:20-42 | empty input clears the value and every field; unparsable input keeps the value; otherwise the wei value is the cleaned input times ten to the factor, and the field shows the typed value again when it has at most 20 significant fractional digits |
| Signatures.Trim | src/app/signature-lookup/page.tsx:25 | `String.prototype.trim` over ECMAScript white space; `TrimShape` and `TrimEmptyIff` characterise it |
| Signatures.Classify | src/app/signature-lookup/page.tsx:25-45 | what a search does with the text: nothing, reject the length, or send a lookup or search request; `ClassifyOutcomes` characterises it |
| Signatures.RowsOf | src/app/signature-lookup/page.tsx:55-65 | the rows one list of the answer yields, hash by hash and signature by signature; `RowCount`, `RowsFromPairs` and `RowsHaveKind` characterise it |
| Signatures.Flattened | src/app/signature-lookup/page.tsx:51-81 | the function rows followed by the event rows; `FunctionsBeforeEvents` characterises it |
| Signatures.RowKey | src/app/signature-lookup/page.tsx:248 | the table's `rowKey`, the hash and the name joined by `-`; `RowKeyInjective` and `DashAfterHash` characterise it |
| Signatures.TrimShape | src/app/signature-lookup/page.tsx:25 | the trimmed query is a slice of the text with only whitespace around it and no whitespace at either end |
| Signatures.TrimEmptyIff | src/app/signature-lookup/page.tsx:25-26 | the query is empty if and only if the text is all whitespace |
| Signatures.ClassifyOutcomes | src/app/signature-lookup/page.tsx:25-45 | a blank query sends nothing; a `0x` query goes to the lookup endpoint exactly when it has 10 or 66 characters and is rejected otherwise; any other query goes to the search endpoint; the value sent is always the trimmed query |
| Signatures.SelectorsAndTopics | src/app/signature-lookup/page.tsx:31-36 | `0x` and a 4-byte hex selector is looked up as a function, and `0x` and a 32-byte topic as an event, whatever whitespace surrounds them |
| Signatures.RowCount | src/app/signature-lookup/page.tsx:55-65 | one row per signature of every hash |
| Signatures.RowsFromPairs | src/app/signature-lookup/page.tsx:55-65 | a row is produced if and only if some hash lists a signature with that name and those flags |
| Signatures.RowsHaveKind | src/app/signature-lookup/page.tsx:55-79 | every row is tagged with the kind of the list it came from |
| Signatures.FunctionsBeforeEvents | src/app/signature-lookup/page.tsx:51-81 | all function rows come before all event rows, and the table holds the signatures of both lists |
| Signatures.PushRows | src/app/signature-lookup/page.tsx:55-65 | the nested loops append exactly `RowsOf(entries, kind)` |
| Signatures.PageSize | src/app/signature-lookup/page.tsx:249 | the table is paged, in pages of 50, exactly when it has more than 50 rows |
| Signatures.RowKeyInjective | src/app/signature-lookup/page.tsx:248 | for hashes without `-`, equal row keys mean equal hash and name |
| Signatures.DashAfterHash | src/app/signature-lookup/page.tsx:248 | the first `-` of a row key ends the hash |
| Signatures.SignatureLookup.constructor | src/app/signature-lookup/page.tsx:19-22 | the page starts with an empty query, not loading, no rows and no search done |
| Signatures.SignatureLookup.HandleSearch | src/app/signature-lookup/page.tsx:24-93 | a blank query changes nothing; a `0x` query of the wrong length marks the page searched and keeps the rows; any other query sends its request, and the rows become the flattened answer when it is `ok` with a result and are kept otherwise; loading ends in both cases |

## Left out

- Streaming and the child process. `spawn`, the relaying of its
  stdout/stderr, the `error` event and the exit-code message are not
  modelled. The model stops at the `Spawned` outcome. It proves what the
  `close` handler's removal leaves behind.
- `FORCE_COLOR` and the other inherited environment variables. Only
  `PATH` and `HOME` are modelled.
- The scratch directory's random name (`Math.random`) and `os.tmpdir()`.
  The directory is a parameter, required to be vacant with an existing
  parent. The copy's throwing paths are not modelled, for example a file
  in the way of a directory. The copy is required not to meet them, so the
  `System Error` outcome arises only from the simulation's file write.
- The text of a thrown error's message. It is not modelled.
- A failed removal of the scratch directory. The `close` handler catches
  an `fs.rmSync` error, logs it and leaves the directory behind;
  `RemoveTree` and `FileSystem.RemoveRecursive` always succeed, so
  `RunRoute.ExitRestoresDisk` assumes the removal succeeds.
- `path.join` normalisation. Paths are lists of components. The template
  root is a directory named `foundry`.
- `umask`. The mode of a newly written test file is `0o666` in the model.
- Request bodies whose `inputs` are not strings (numbers, booleans,
  objects). `inputs` is a map from field names to strings.
- Templates.DeclaresTestEntryPoint: states that the contract declares the
  test function, not that it declares it exactly once. The user's fields
  are free text and may contain the same line.
- Templates.NoDealIgnoresTokenFields: states that the contract has no
  `deal(`/`approve(` call when dealing is off through non-interference and
  an empty funding block. The interface declaration always contains
  `approve(`.
- Converter.Converter.HandleInputChange: `BigNumber` semantics are
  modelled on exact decimals in plain notation, which is all that can
  reach it after cleaning keeps only digits, `.` and `-`. A parsed `-0`
  is the same as `0`.
- Converter.Converter.HandleInputChange: the read-back of the edited
  field is promised only for entries with at most 20 significant
  fractional digits. `dividedBy` rounds every quotient to 20 places
  (`RoundHalfUp`), so 0.000000000000000000001 typed in Wei shows as `0`.
  `Converter.ReadBack` carries the same bound.
- Converter.RoundNearest: does not state that an entry with more than 20
  significant fractional digits never reads back unchanged. It bounds the
  error by half a unit of the twentieth digit.
- Converter.ConvertBetweenUnits: states the exact quotient. The field
  shows it rounded to 20 fractional digits (`CalculateValue`).
- The clipboard, `message` toasts and the `try`/`catch` around the
  `BigNumber` calls in the converter and signature pages. They are user
  interface effects with no bearing on the state.
- The fetch, the JSON decoding and URL encoding of the signature request.
  The request is a value (endpoint, parameter name, query). The answer is
  an `Option<Answer>`, with `None` for a failed fetch.
- Answers whose signature lists are not arrays. They are not modelled.
- Signatures.SignatureLookup.HandleSearch: query lengths are counted in
  Dafny characters, not UTF-16 code units. The intermediate `loading ==
  true` state during the fetch is not visible in the model.
- The rendering of the pages (JSX, CSS, columns, tags, tooltips) is not
  part of this model.
