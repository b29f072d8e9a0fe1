/** The `POST /api/run` handler, up to the point where it spawns Foundry:
    provisioning of a scratch copy of the template project, the choice of
    the `forge`/`cast` binaries, validation of the request, the command line
    and the search path handed to the child process.

    The handler's environment is given as parameters: the working directory,
    `HOME` and `PATH`, the fresh scratch directory (named at random by the
    handler), the set of binary paths that exist, and the set of paths on
    which `chmod` fails. The request body's `inputs` is a map from field
    names to string values; a field that is absent stands for `undefined`. */
module RunRoute {
  import opened Common
  import opened Workspace
  import Templates

  /** `path.join(a, b)` for an `a` with no trailing separator. */
  function JoinPath(a: string, b: string): string
  {
    a + "/" + b
  }

  /** `process.env.HOME || '/root'`: an unset or empty `HOME` falls back to
      `/root`. */
  function HomeDir(home: Option<string>): (r: string)
    ensures r != ""
    ensures home.Some? && home.value != "" ==> r == home.value
    ensures home.None? || home.value == "" ==> r == "/root"
  {
    OrElse(if home.Some? then home.value else "", "/root")
  }

  /** The per-user Foundry installation directory. */
  function UserBin(home: string): string
  {
    JoinPath(home, ".foundry/bin")
  }

  /** The bundled binaries directory of the application. */
  function ProjectBin(projectRoot: string): string
  {
    JoinPath(projectRoot, "bin")
  }

  /** The directory both binaries are taken from: the bundled one if it
      holds `forge`, else the per-user one if that holds `forge`, else none
      (the bare names are looked up on the search path). */
  function BinaryDir(projectBin: string, userBin: string, present: set<string>): Option<string>
  {
    if JoinPath(projectBin, "forge") in present then Some(projectBin)
    else if JoinPath(userBin, "forge") in present then Some(userBin)
    else None
  }

  /** The command for `tool` given the chosen directory. */
  function ToolPath(dir: Option<string>, tool: string): string
  {
    match dir
    case None => tool
    case Some(d) => JoinPath(d, tool)
  }

  /** The three levels of the binary priority, each with its condition. */
  lemma BinaryPriority(projectBin: string, userBin: string, present: set<string>)
    ensures BinaryDir(projectBin, userBin, present) == Some(projectBin)
            <== JoinPath(projectBin, "forge") in present
    ensures BinaryDir(projectBin, userBin, present) == Some(userBin)
            <== JoinPath(projectBin, "forge") !in present && JoinPath(userBin, "forge") in present
    ensures BinaryDir(projectBin, userBin, present) == None
            <==> JoinPath(projectBin, "forge") !in present && JoinPath(userBin, "forge") !in present
  {
  }

  /** Only the presence of `forge` in the two directories decides the
      choice: whether `cast` exists anywhere, or anything else does, plays
      no part. */
  lemma BinaryDirOnlyAsksForForge(projectBin: string, userBin: string, p1: set<string>, p2: set<string>)
    requires JoinPath(projectBin, "forge") in p1 <==> JoinPath(projectBin, "forge") in p2
    requires JoinPath(userBin, "forge") in p1 <==> JoinPath(userBin, "forge") in p2
    ensures BinaryDir(projectBin, userBin, p1) == BinaryDir(projectBin, userBin, p2)
  {
  }

  /** Locating the binaries: both start as the bare names and are replaced
      together by the paths in the first directory that holds `forge`. */
  method LocateBinaries(projectBin: string, userBin: string, present: set<string>)
      returns (forgeBin: string, castBin: string)
    ensures forgeBin == ToolPath(BinaryDir(projectBin, userBin, present), "forge")
    ensures castBin == ToolPath(BinaryDir(projectBin, userBin, present), "cast")
  {
    forgeBin := "forge";
    castBin := "cast";
    if JoinPath(projectBin, "forge") in present {
      forgeBin := JoinPath(projectBin, "forge");
      castBin := JoinPath(projectBin, "cast");
    } else if JoinPath(userBin, "forge") in present {
      forgeBin := JoinPath(userBin, "forge");
      castBin := JoinPath(userBin, "cast");
    }
  }

  /** A chosen `forge` that is not the bare name exists; `cast` always sits
      beside `forge`, under the same directory or on the search path. */
  lemma ChosenForgeExists(projectBin: string, userBin: string, present: set<string>)
    ensures var dir := BinaryDir(projectBin, userBin, present);
            (dir.Some? ==> ToolPath(dir, "forge") in present)
            && (dir.Some? <==> ToolPath(dir, "cast") != "cast")
  {
  }

  /** The `PATH` of the child process: the bundled and per-user binary
      directories, then the inherited search path (a missing one is
      interpolated as the text `undefined`). */
  function SearchPath(projectBin: string, userBin: string, inherited: Option<string>): string
  {
    projectBin + ":" + userBin + ":" + (if inherited.Some? then inherited.value else "undefined")
  }

  /** The child's search path prepends the two binary directories to the
      inherited one rather than replacing it. */
  lemma SearchPathPrepends(projectBin: string, userBin: string, inherited: string)
    ensures var r := SearchPath(projectBin, userBin, Some(inherited));
            |r| >= |inherited| && r[|r| - |inherited|..] == inherited
            && IsPrefix(projectBin + ":" + userBin + ":", r)
  {
    var r := SearchPath(projectBin, userBin, Some(inherited));
    var front := projectBin + ":" + userBin + ":";
    assert r == front + inherited;
  }

  /** JavaScript falsiness of `inputs[field]` for string-valued inputs:
      absent (`undefined`) or empty. */
  predicate Falsy(inputs: map<string, string>, field: string)
  {
    field !in inputs || inputs[field] == ""
  }

  /** `required.filter(field => !inputs[field])`. */
  function MissingFields(required: seq<string>, inputs: map<string, string>): seq<string>
  {
    if |required| == 0 then []
    else (if Falsy(inputs, required[0]) then [required[0]] else []) + MissingFields(required[1..], inputs)
  }

  /** A field is reported missing exactly when it is required and falsy. */
  lemma {:induction false} MissingFieldsExactly(required: seq<string>, inputs: map<string, string>, f: string)
    ensures f in MissingFields(required, inputs) <==> f in required && Falsy(inputs, f)
  {
    if |required| > 0 {
      MissingFieldsExactly(required[1..], inputs, f);
      assert required == [required[0]] + required[1..];
    }
  }

  /** The fields a `SIMULATE` request must carry, in reporting order. */
  const SimulateRequired: seq<string> := ["sender", "to", "calldata"]

  /** The missing-field list of a `SIMULATE` request names each falsy field
      among `sender`, `to`, `calldata`, in that order. */
  lemma SimulateMissingInOrder(inputs: map<string, string>)
    ensures MissingFields(SimulateRequired, inputs)
            == (if Falsy(inputs, "sender") then ["sender"] else [])
               + (if Falsy(inputs, "to") then ["to"] else [])
               + (if Falsy(inputs, "calldata") then ["calldata"] else [])
  {
    var r := SimulateRequired;
    assert r[1..] == ["to", "calldata"] && r[1..][1..] == ["calldata"] && r[1..][1..][1..] == [];
    var last := MissingFields(["calldata"], inputs);
    assert last == (if Falsy(inputs, "calldata") then ["calldata"] else []) + MissingFields([], inputs);
    var two := MissingFields(["to", "calldata"], inputs);
    assert two == (if Falsy(inputs, "to") then ["to"] else []) + last;
  }

  /** The arguments of `cast` for a `TRACE` request. */
  function TraceArgs(txHash: string, rpcUrl: string): seq<string>
  {
    ["run", txHash, "--rpc-url", rpcUrl]
  }

  /** The arguments of `forge` for a `SIMULATE` request. */
  const SimulateArgs: seq<string> := ["test", "--mt", "testSimulation", "-vvvv", "--color", "always"]

  /** `forge` is asked to run only tests whose name matches `--mt`, and the
      rendered contract declares a test of exactly that name. */
  lemma SimulateRunsRenderedTest(inputs: Templates.SimulationInputs)
    ensures SimulateArgs[1] == "--mt" && SimulateArgs[2] == Templates.TestName
    ensures Contains(Templates.GenerateSimulationTest(inputs), "function " + SimulateArgs[2] + "() public {")
  {
    SelectsTestByName();
    Templates.DeclaresTestEntryPoint(inputs);
  }

  /** The `forge test` arguments select the test function by name. */
  lemma SelectsTestByName()
    ensures SimulateArgs[1] == "--mt" && SimulateArgs[2] == Templates.TestName
  {
  }

  /** The message the handler sends for missing `SIMULATE` fields. */
  function MissingMessage(missing: seq<string>): string
  {
    "Error: Missing required fields: " + JoinWith(missing, ", ") + "\n"
  }

  const TemplateNotFound: string := "Error: Source foundry directory not found.\n"
  const TraceInputsMissing: string := "Error: Missing Tx Hash or RPC URL\n"
  const UnknownType: string := "Error: Unknown operation type\n"
  const WritingTest: string := "Writing simulation test contract...\r\n"

  /** The two lines announcing a trace. */
  function TraceBanner(txHash: string): seq<string>
  {
    ["Creating trace for " + txHash + "...\r\n", "> cast run ...\r\n\r\n"]
  }

  /** The line announcing the simulation command: `> forge` and the
      arguments of `SimulateArgs` joined by single spaces. */
  const SimulateBanner: string := "> forge test --mt testSimulation -vvvv --color always\r\n\r\n"

  /** `fs.writeFileSync(p, content)`: an existing file keeps its mode and
      gets the new content; a new file is created with mode `0o666`. */
  function WriteFile(nodes: map<Path, Node>, p: Path, content: string): (r: map<Path, Node>)
    ensures r.Keys == nodes.Keys + {p}
    ensures r[p].RegularFile? && r[p].content == content
    ensures forall k | k in nodes && k != p :: r[k] == nodes[k]
    ensures p in nodes && nodes[p].RegularFile? ==> r[p].mode == nodes[p].mode
  {
    if p in nodes && nodes[p].RegularFile? then nodes[p := RegularFile(content, nodes[p].mode)]
    else nodes[p := RegularFile(content, WritableMode)]
  }

  /** The process environment the handler reads. */
  datatype Environment = Environment(cwd: string, home: Option<string>, path: Option<string>)

  /** How the handler ends: the stream is closed after an error message; a
      thrown error is reported as a system error; or the child process is
      spawned with this command line, working directory and environment. */
  datatype Outcome =
    | Closed
    | SystemError
    | Spawned(command: string, args: seq<string>, cwd: Path, searchPath: string, home: string)

  /** What the handler has done when it stops: the messages it sent before
      the child runs, how it ends, and the file system with its warnings. */
  datatype Response = Response(sent: seq<string>, outcome: Outcome, nodes: map<Path, Node>, warnings: seq<Path>)

  /** The handler's effect, as a function of the file system before the
      request, the request, the template tree (if it exists) and the
      environment. */
  function Handle(nodes: map<Path, Node>, warnings: seq<Path>, kind: string, inputs: map<string, string>,
                  template: Option<Entry>, env: Environment, tempDir: Path,
                  present: set<string>, denied: set<Path>): Response
  {
    match template
    case None => Response([TemplateNotFound], Closed, nodes, warnings)
    case Some(t) =>
      Prepare(nodes + Copy(t, tempDir, TemplateExcludes, denied),
              warnings + Warnings(t, tempDir, TemplateExcludes, denied),
              kind, inputs, env, tempDir, present)
  }

  /** The handler once the template is copied to `tempDir`: validation, the
      test file of a simulation, and the command line. */
  function Prepare(nodes: map<Path, Node>, warnings: seq<Path>, kind: string, inputs: map<string, string>,
                   env: Environment, tempDir: Path, present: set<string>): Response
  {
    var home := HomeDir(env.home);
    var projectBin := ProjectBin(env.cwd);
    var dir := BinaryDir(projectBin, UserBin(home), present);
    var path := SearchPath(projectBin, UserBin(home), env.path);
    if kind == "TRACE" then
      if Falsy(inputs, "txHash") || Falsy(inputs, "rpcUrl") then
        Response([TraceInputsMissing], Closed, nodes, warnings)
      else
        Response(TraceBanner(inputs["txHash"]),
                 Spawned(ToolPath(dir, "cast"), TraceArgs(inputs["txHash"], inputs["rpcUrl"]), tempDir, path, home),
                 nodes, warnings)
    else if kind == "SIMULATE" then
      Simulate(nodes, warnings, inputs, tempDir, ToolPath(dir, "forge"), path, home)
    else
      Response([UnknownType], Closed, nodes, warnings)
  }

  /** A `SIMULATE` request: validation, then the test file written under
      the copy's `test` directory (created if absent), then `forge`. */
  function Simulate(nodes: map<Path, Node>, warnings: seq<Path>, inputs: map<string, string>,
                    tempDir: Path, forgeBin: string, path: string, home: string): Response
  {
    var missing := MissingFields(SimulateRequired, inputs);
    var testDir := tempDir + ["test"];
    var testFile := testDir + ["Simulation.t.sol"];
    var made := if testDir in nodes then nodes else nodes[testDir := Dir];
    if missing != [] then
      Response([MissingMessage(missing)], Closed, nodes, warnings)
    else if made[testDir] != Dir || (testFile in made && made[testFile] == Dir) || "scriptContent" !in inputs then
      Response([WritingTest], SystemError, made, warnings)
    else
      Response([WritingTest, SimulateBanner],
               Spawned(forgeBin, SimulateArgs, tempDir, path, home),
               WriteFile(made, testFile, inputs["scriptContent"]), warnings)
  }

  /** Without the template directory the handler sends one error and
      stops: nothing is copied, nothing is spawned. */
  lemma MissingTemplateStops(nodes: map<Path, Node>, warnings: seq<Path>, kind: string, inputs: map<string, string>,
                             env: Environment, tempDir: Path, present: set<string>, denied: set<Path>)
    ensures var r := Handle(nodes, warnings, kind, inputs, None, env, tempDir, present, denied);
            r.sent == [TemplateNotFound] && !r.outcome.Spawned? && r.nodes == nodes && r.warnings == warnings
  {
  }

  /** A request the handler turns down (bad inputs, unknown kind) leaves the
      scratch copy in place: it is not cleaned up on those returns. */
  lemma RejectionKeepsCopy(nodes: map<Path, Node>, warnings: seq<Path>, kind: string, inputs: map<string, string>,
                           t: Entry, env: Environment, tempDir: Path, present: set<string>, denied: set<Path>)
    requires t.Directory? && t.name == "foundry"
    ensures var r := Handle(nodes, warnings, kind, inputs, Some(t), env, tempDir, present, denied);
            && (r.outcome == Closed ==> r.nodes == nodes + Copy(t, tempDir, TemplateExcludes, denied))
            && (!r.outcome.Spawned? ==> tempDir in r.nodes && r.nodes[tempDir] == Dir)
  {
    var copied := nodes + Copy(t, tempDir, TemplateExcludes, denied);
    var ws := warnings + Warnings(t, tempDir, TemplateExcludes, denied);
    assert Handle(nodes, warnings, kind, inputs, Some(t), env, tempDir, present, denied)
        == Prepare(copied, ws, kind, inputs, env, tempDir, present);
    CopiedRootIsDir(t, tempDir, denied);
    PrepareKeepsRoot(copied, ws, kind, inputs, env, tempDir, present);
  }

  /** A request turned down after the copy returns the nodes it was given,
      and one that fails to write the test file keeps the scratch root. */
  lemma PrepareKeepsRoot(nodes: map<Path, Node>, warnings: seq<Path>, kind: string, inputs: map<string, string>,
                         env: Environment, tempDir: Path, present: set<string>)
    ensures var r := Prepare(nodes, warnings, kind, inputs, env, tempDir, present);
            && (r.outcome == Closed ==> r.nodes == nodes)
            && (!r.outcome.Spawned? && tempDir in nodes ==> tempDir in r.nodes && r.nodes[tempDir] == nodes[tempDir])
  {
    if kind == "SIMULATE" {
      var home := HomeDir(env.home);
      var projectBin := ProjectBin(env.cwd);
      var forgeBin := ToolPath(BinaryDir(projectBin, UserBin(home), present), "forge");
      var path := SearchPath(projectBin, UserBin(home), env.path);
      assert Prepare(nodes, warnings, kind, inputs, env, tempDir, present)
          == Simulate(nodes, warnings, inputs, tempDir, forgeBin, path, home);
      SimulateKeepsRoot(nodes, warnings, inputs, tempDir, forgeBin, path, home);
    }
  }

  /** The `SIMULATE` branch, when it does not run, only ever adds `test`. */
  lemma SimulateKeepsRoot(nodes: map<Path, Node>, warnings: seq<Path>, inputs: map<string, string>,
                          tempDir: Path, forgeBin: string, path: string, home: string)
    ensures var r := Simulate(nodes, warnings, inputs, tempDir, forgeBin, path, home);
            && (r.outcome == Closed ==> r.nodes == nodes)
            && (!r.outcome.Spawned? && tempDir in nodes ==> tempDir in r.nodes && r.nodes[tempDir] == nodes[tempDir])
  {
    assert tempDir + ["test"] != tempDir;
  }

  /** The child process is spawned only for a trace with a hash and an RPC
      URL, or for a simulation with `sender`, `to`, `calldata` and a script,
      and always in the scratch copy with the extended search path and the
      resolved home directory. */
  lemma SpawnOnlyWhenValid(nodes: map<Path, Node>, warnings: seq<Path>, kind: string, inputs: map<string, string>,
                           template: Option<Entry>, env: Environment, tempDir: Path, present: set<string>, denied: set<Path>)
    ensures var r := Handle(nodes, warnings, kind, inputs, template, env, tempDir, present, denied);
            r.outcome.Spawned? ==>
              && template.Some?
              && ((kind == "TRACE" && !Falsy(inputs, "txHash") && !Falsy(inputs, "rpcUrl"))
                  || (kind == "SIMULATE" && MissingFields(SimulateRequired, inputs) == [] && "scriptContent" in inputs))
              && r.outcome.cwd == tempDir
              && r.outcome.home == HomeDir(env.home)
              && r.outcome.searchPath == SearchPath(ProjectBin(env.cwd), UserBin(HomeDir(env.home)), env.path)
  {
  }

  /** A trace with both fields runs `cast run <txHash> --rpc-url <rpcUrl>`
      with the resolved `cast`, after announcing the hash. */
  lemma TraceCommand(nodes: map<Path, Node>, warnings: seq<Path>, inputs: map<string, string>,
                     t: Entry, env: Environment, tempDir: Path, present: set<string>, denied: set<Path>)
    requires !Falsy(inputs, "txHash") && !Falsy(inputs, "rpcUrl")
    ensures var r := Handle(nodes, warnings, "TRACE", inputs, Some(t), env, tempDir, present, denied);
            var dir := BinaryDir(ProjectBin(env.cwd), UserBin(HomeDir(env.home)), present);
            && r.outcome.Spawned?
            && r.outcome.command == ToolPath(dir, "cast")
            && r.outcome.args == ["run", inputs["txHash"], "--rpc-url", inputs["rpcUrl"]]
            && r.sent == ["Creating trace for " + inputs["txHash"] + "...\r\n", "> cast run ...\r\n\r\n"]
  {
  }

  /** A request of any other kind is turned down with one message, after
      the template has been copied. */
  lemma UnknownTypeRejected(nodes: map<Path, Node>, warnings: seq<Path>, kind: string, inputs: map<string, string>,
                            t: Entry, env: Environment, tempDir: Path, present: set<string>, denied: set<Path>)
    requires kind != "TRACE" && kind != "SIMULATE"
    ensures var r := Handle(nodes, warnings, kind, inputs, Some(t), env, tempDir, present, denied);
            && r.sent == [UnknownType] && r.outcome == Closed
            && r.nodes == nodes + Copy(t, tempDir, TemplateExcludes, denied)
            && r.warnings == warnings + Warnings(t, tempDir, TemplateExcludes, denied)
  {
  }

  /** A trace lacking either field is turned down with one message. */
  lemma TraceNeedsHashAndUrl(nodes: map<Path, Node>, warnings: seq<Path>, inputs: map<string, string>,
                             t: Entry, env: Environment, tempDir: Path, present: set<string>, denied: set<Path>)
    requires Falsy(inputs, "txHash") || Falsy(inputs, "rpcUrl")
    ensures var r := Handle(nodes, warnings, "TRACE", inputs, Some(t), env, tempDir, present, denied);
            r.sent == [TraceInputsMissing] && r.outcome == Closed
  {
  }

  /** A simulation lacking a required field is turned down with a message
      naming exactly the falsy ones among `sender`, `to`, `calldata`. */
  lemma SimulateReportsMissing(nodes: map<Path, Node>, warnings: seq<Path>, inputs: map<string, string>,
                               t: Entry, env: Environment, tempDir: Path, present: set<string>, denied: set<Path>)
    requires Falsy(inputs, "sender") || Falsy(inputs, "to") || Falsy(inputs, "calldata")
    ensures var r := Handle(nodes, warnings, "SIMULATE", inputs, Some(t), env, tempDir, present, denied);
            var missing := MissingFields(SimulateRequired, inputs);
            && r.sent == [MissingMessage(missing)] && r.outcome == Closed
            && forall f :: f in missing <==> f in SimulateRequired && Falsy(inputs, f)
  {
    SimulateMissingFields(inputs);
  }

  /** The missing-field list of a simulation lacking a required field is not
      empty, and names exactly the falsy required fields. */
  lemma SimulateMissingFields(inputs: map<string, string>)
    requires Falsy(inputs, "sender") || Falsy(inputs, "to") || Falsy(inputs, "calldata")
    ensures var missing := MissingFields(SimulateRequired, inputs);
            && missing != []
            && forall f :: f in missing <==> f in SimulateRequired && Falsy(inputs, f)
  {
    var missing := MissingFields(SimulateRequired, inputs);
    forall f
      ensures f in missing <==> f in SimulateRequired && Falsy(inputs, f)
    {
      MissingFieldsExactly(SimulateRequired, inputs, f);
    }
    var f :| f in SimulateRequired && Falsy(inputs, f);
    assert f in missing;
  }

  /** The test file can be written in the scratch copy: `test` is absent or
      a directory, and `test/Simulation.t.sol` is absent or not a directory. */
  predicate TestFileWritable(nodes: map<Path, Node>, tempDir: Path)
  {
    var testDir := tempDir + ["test"];
    var testFile := testDir + ["Simulation.t.sol"];
    (testDir in nodes ==> nodes[testDir] == Dir) && (testFile in nodes ==> nodes[testFile] != Dir)
  }

  /** A simulation with `sender`, `to`, `calldata` and a script, whose test
      file can be written, announces the write and the command and runs
      `forge test` with the resolved `forge`, in the scratch copy with the
      extended search path and the resolved home directory. */
  lemma ValidSimulationSpawns(nodes: map<Path, Node>, warnings: seq<Path>, inputs: map<string, string>,
                              t: Entry, env: Environment, tempDir: Path, present: set<string>, denied: set<Path>)
    requires MissingFields(SimulateRequired, inputs) == [] && "scriptContent" in inputs
    requires TestFileWritable(nodes + Copy(t, tempDir, TemplateExcludes, denied), tempDir)
    ensures var r := Handle(nodes, warnings, "SIMULATE", inputs, Some(t), env, tempDir, present, denied);
            var home := HomeDir(env.home);
            && r.sent == [WritingTest, SimulateBanner]
            && r.outcome == Spawned(ToolPath(BinaryDir(ProjectBin(env.cwd), UserBin(home), present), "forge"), SimulateArgs,
                                    tempDir, SearchPath(ProjectBin(env.cwd), UserBin(home), env.path), home)
  {
  }

  /** A valid simulation whose test file cannot be written (a file where
      `test` should be, a directory where the test file should be, or no
      script) ends in a system error after announcing the write. */
  lemma BlockedSimulationFails(nodes: map<Path, Node>, warnings: seq<Path>, inputs: map<string, string>,
                               t: Entry, env: Environment, tempDir: Path, present: set<string>, denied: set<Path>)
    requires MissingFields(SimulateRequired, inputs) == []
    requires !TestFileWritable(nodes + Copy(t, tempDir, TemplateExcludes, denied), tempDir) || "scriptContent" !in inputs
    ensures var r := Handle(nodes, warnings, "SIMULATE", inputs, Some(t), env, tempDir, present, denied);
            r.sent == [WritingTest] && r.outcome == SystemError
  {
  }

  /** A simulation that runs has first written the request's `scriptContent`,
      verbatim, to `test/Simulation.t.sol` in the scratch copy, leaving every
      other copied node as it was, and runs `forge test` on `testSimulation`. */
  lemma SimulateWritesScript(nodes: map<Path, Node>, warnings: seq<Path>, inputs: map<string, string>,
                             t: Entry, env: Environment, tempDir: Path, present: set<string>, denied: set<Path>)
    requires MissingFields(SimulateRequired, inputs) == [] && "scriptContent" in inputs
    requires TestFileWritable(nodes + Copy(t, tempDir, TemplateExcludes, denied), tempDir)
    ensures var r := Handle(nodes, warnings, "SIMULATE", inputs, Some(t), env, tempDir, present, denied);
            var copied := nodes + Copy(t, tempDir, TemplateExcludes, denied);
            var testDir := tempDir + ["test"];
            var testFile := testDir + ["Simulation.t.sol"];
              && r.outcome.Spawned?
              && r.outcome.command == ToolPath(BinaryDir(ProjectBin(env.cwd), UserBin(HomeDir(env.home)), present), "forge")
              && r.outcome.args == SimulateArgs
              && testFile in r.nodes && r.nodes[testFile].RegularFile?
              && r.nodes[testFile].content == inputs["scriptContent"]
              && testDir in r.nodes && r.nodes[testDir] == Dir
              && r.nodes.Keys == copied.Keys + {testDir, testFile}
              && forall k | k in copied && k != testDir && k != testFile :: k in r.nodes && r.nodes[k] == copied[k]
  {
    var copied := nodes + Copy(t, tempDir, TemplateExcludes, denied);
    var forgeBin := ToolPath(BinaryDir(ProjectBin(env.cwd), UserBin(HomeDir(env.home)), present), "forge");
    var path := SearchPath(ProjectBin(env.cwd), UserBin(HomeDir(env.home)), env.path);
    var ws := warnings + Warnings(t, tempDir, TemplateExcludes, denied);
    assert Handle(nodes, warnings, "SIMULATE", inputs, Some(t), env, tempDir, present, denied)
        == Simulate(copied, ws, inputs, tempDir, forgeBin, path, HomeDir(env.home));
    SimulateWritesTestFile(copied, ws, inputs, tempDir, forgeBin, path, HomeDir(env.home));
  }

  /** The `SIMULATE` branch on valid inputs writes the script to the test
      file, creating `test` if needed, and nothing else. */
  lemma SimulateWritesTestFile(nodes: map<Path, Node>, warnings: seq<Path>, inputs: map<string, string>,
                               tempDir: Path, forgeBin: string, path: string, home: string)
    requires MissingFields(SimulateRequired, inputs) == [] && "scriptContent" in inputs
    requires TestFileWritable(nodes, tempDir)
    ensures var r := Simulate(nodes, warnings, inputs, tempDir, forgeBin, path, home);
            var testDir := tempDir + ["test"];
            var testFile := testDir + ["Simulation.t.sol"];
              && r.outcome == Spawned(forgeBin, SimulateArgs, tempDir, path, home)
              && testFile in r.nodes && r.nodes[testFile].RegularFile?
              && r.nodes[testFile].content == inputs["scriptContent"]
              && testDir in r.nodes && r.nodes[testDir] == Dir
              && r.nodes.Keys == nodes.Keys + {testDir, testFile}
              && forall k | k in nodes && k != testDir && k != testFile :: k in r.nodes && r.nodes[k] == nodes[k]
  {
    var testDir := tempDir + ["test"];
    assert testDir != testDir + ["Simulation.t.sol"];
  }

  /** Whatever the `SIMULATE` branch writes lies below the scratch
      directory. */
  lemma SimulateStaysInside(nodes: map<Path, Node>, warnings: seq<Path>, inputs: map<string, string>,
                            tempDir: Path, forgeBin: string, path: string, home: string)
    ensures SameOutside(nodes, Simulate(nodes, warnings, inputs, tempDir, forgeBin, path, home).nodes, tempDir)
  {
    var testDir := tempDir + ["test"];
    var testFile := testDir + ["Simulation.t.sol"];
    assert testDir[..|tempDir|] == tempDir;
    assert testFile[..|tempDir|] == tempDir;
  }

  /** The handler, once the template is copied, changes nothing outside
      the scratch directory. */
  lemma PrepareStaysInside(nodes: map<Path, Node>, warnings: seq<Path>, kind: string, inputs: map<string, string>,
                           env: Environment, tempDir: Path, present: set<string>)
    ensures SameOutside(nodes, Prepare(nodes, warnings, kind, inputs, env, tempDir, present).nodes, tempDir)
  {
    if kind == "SIMULATE" {
      var home := HomeDir(env.home);
      var projectBin := ProjectBin(env.cwd);
      var dir := BinaryDir(projectBin, UserBin(home), present);
      SimulateStaysInside(nodes, warnings, inputs, tempDir, ToolPath(dir, "forge"),
                          SearchPath(projectBin, UserBin(home), env.path), home);
    }
  }

  /** Once a spawned child exits, its `close` handler removes the scratch
      directory: the file system is then exactly what it was before the
      request, whatever the copy and the test file wrote. */
  lemma ExitRestoresDisk(nodes: map<Path, Node>, warnings: seq<Path>, kind: string, inputs: map<string, string>,
                         t: Entry, env: Environment, tempDir: Path, present: set<string>, denied: set<Path>)
    requires Vacant(nodes, tempDir)
    ensures var r := Handle(nodes, warnings, kind, inputs, Some(t), env, tempDir, present, denied);
            r.outcome.Spawned? ==> RemoveTree(r.nodes, tempDir) == nodes
  {
    var copied := nodes + Copy(t, tempDir, TemplateExcludes, denied);
    var after := Prepare(copied, warnings + Warnings(t, tempDir, TemplateExcludes, denied),
                         kind, inputs, env, tempDir, present).nodes;
    CopyStaysInside(nodes, t, tempDir, TemplateExcludes, denied);
    PrepareStaysInside(copied, warnings + Warnings(t, tempDir, TemplateExcludes, denied),
                       kind, inputs, env, tempDir, present);
    assert SameOutside(nodes, after, tempDir);
    RemoveTreeForgets(nodes, after, tempDir);
  }

  /** The handler, writing into `disk`: it returns what it sends to the
      stream before the child runs, and how it ends. The template's root is
      the `foundry` directory of the application; `tempDir` is a fresh name
      in the system's temporary directory. */
  method Post(disk: FileSystem, kind: string, inputs: map<string, string>,
              template: Option<Entry>, env: Environment, tempDir: Path,
              present: set<string>, denied: set<Path>)
      returns (sent: seq<string>, outcome: Outcome)
    requires template.Some? ==> WellFormed(template.value) && template.value.Directory? && template.value.name == "foundry"
    requires ParentIsDir(disk.nodes, tempDir) && Vacant(disk.nodes, tempDir)
    modifies disk
    ensures Response(sent, outcome, disk.nodes, disk.warnings)
            == Handle(old(disk.nodes), old(disk.warnings), kind, inputs, template, env, tempDir, present, denied)
  {
    sent := [];
    if template.None? {
      sent := sent + [TemplateNotFound];
      return sent, Closed;
    }
    VacantCompatible(disk.nodes, template.value, tempDir, TemplateExcludes);
    disk.CopyRecursive(template.value, tempDir, TemplateExcludes, denied);
    sent, outcome := PrepareCommand(disk, kind, inputs, env, tempDir, present);
  }

  /** The handler once the template is copied to `tempDir`, which is
      therefore a directory. */
  method PrepareCommand(disk: FileSystem, kind: string, inputs: map<string, string>,
                        env: Environment, tempDir: Path, present: set<string>)
      returns (sent: seq<string>, outcome: Outcome)
    modifies disk
    ensures Response(sent, outcome, disk.nodes, disk.warnings)
            == Prepare(old(disk.nodes), old(disk.warnings), kind, inputs, env, tempDir, present)
  {
    sent := [];
    var foundryDir := tempDir;
    var projectBin := ProjectBin(env.cwd);
    var homeDir := HomeDir(env.home);
    var userBin := UserBin(homeDir);
    var forgeBin, castBin := LocateBinaries(projectBin, userBin, present);

    var command := "";
    var args: seq<string> := [];
    if kind == "TRACE" {
      if Falsy(inputs, "txHash") || Falsy(inputs, "rpcUrl") {
        sent := sent + [TraceInputsMissing];
        return sent, Closed;
      }
      command := castBin;
      args := TraceArgs(inputs["txHash"], inputs["rpcUrl"]);
      sent := sent + TraceBanner(inputs["txHash"]);
    } else if kind == "SIMULATE" {
      sent, outcome := PrepareSimulation(disk, inputs, foundryDir, forgeBin, SearchPath(projectBin, userBin, env.path), homeDir);
      return;
    } else {
      sent := sent + [UnknownType];
      return sent, Closed;
    }
    outcome := Spawned(command, args, foundryDir, SearchPath(projectBin, userBin, env.path), homeDir);
  }

  /** The `SIMULATE` branch of the handler. */
  method PrepareSimulation(disk: FileSystem, inputs: map<string, string>, foundryDir: Path,
                           forgeBin: string, path: string, homeDir: string)
      returns (sent: seq<string>, outcome: Outcome)
    modifies disk
    ensures Response(sent, outcome, disk.nodes, disk.warnings)
            == Simulate(old(disk.nodes), old(disk.warnings), inputs, foundryDir, forgeBin, path, homeDir)
  {
    sent := [];
    var missing := MissingFields(SimulateRequired, inputs);
    if |missing| > 0 {
      sent := sent + [MissingMessage(missing)];
      return sent, Closed;
    }
    var testDir := foundryDir + ["test"];
    var testFile := testDir + ["Simulation.t.sol"];
    if testDir !in disk.nodes {
      disk.nodes := disk.nodes[testDir := Dir];
    }
    sent := sent + [WritingTest];
    if disk.nodes[testDir] != Dir || (testFile in disk.nodes && disk.nodes[testFile] == Dir)
       || "scriptContent" !in inputs {
      return sent, SystemError;
    }
    disk.nodes := WriteFile(disk.nodes, testFile, inputs["scriptContent"]);
    sent := sent + [SimulateBanner];
    outcome := Spawned(forgeBin, SimulateArgs, foundryDir, path, homeDir);
  }

  /** A copied template directory leaves a directory at the destination. */
  lemma CopiedRootIsDir(e: Entry, dest: Path, denied: set<Path>)
    requires e.Directory? && e.name !in TemplateExcludes
    ensures dest in Copy(e, dest, TemplateExcludes, denied) && Copy(e, dest, TemplateExcludes, denied)[dest] == Dir
  {
    CopyChildrenUnder(e.children, dest, TemplateExcludes, denied);
  }
}
