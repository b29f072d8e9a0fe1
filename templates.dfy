/** The simulation test-contract renderer: a pure template that turns the
    simulation form's fields into the source text of a Foundry test
    contract. Each block is written as the list of its pieces, literal text
    and interpolated values alternating as in the template literal; the text
    is reproduced character for character, including the indentation and the
    trailing blanks of the otherwise empty lines. */
module Templates {
  import opened Common

  /** The fields of the simulation form. Every field is free text except the
      deal switch; an empty string is JavaScript-falsy. */
  datatype SimulationInputs = SimulationInputs(
    rpcUrl: string,
    sender: string,
    to: string,
    calldata: string,
    amount: string,
    msgValue: string,
    shouldDealToken: bool,
    tokenAddress: string,
    spender: string)

  /** The name of the one test function the contract declares; the run
      route filters the test run on exactly this name. */
  const TestName: string := "testSimulation"

  /** The declaration line of the test function. */
  const TestDeclaration: string := "function " + TestName + "() public {"

  /** The fork call of `setUp`, with the RPC URL inside a string literal. */
  function ForkCall(rpcUrl: string): string
  {
    "vm.selectFork(vm.createFork(\"" + rpcUrl + "\"));"
  }

  /** `vm.startPrank(who);` */
  function PrankStart(who: string): string
  {
    "vm.startPrank(" + who + ");"
  }

  /** The opening of a block guarded by `who` being a non-zero address. */
  function NonZeroGuard(who: string): string
  {
    "if (" + who + " != address(0)) {"
  }

  /** The token funding call. */
  function DealCall(token: string, holder: string, amount: string): string
  {
    "deal(" + token + ", " + holder + ", " + amount + ");"
  }

  /** The pieces of the allowance grant: a guard on a non-zero spender, a
      prank as the holder around the approve call. */
  function ApprovePieces(spender: string, holder: string, token: string, amount: string): seq<string>
  {
    [
      NonZeroGuard(spender) + "\n"
      + "            ",
      PrankStart(holder),
      "\n"
      + "            IERC20(" + token + ").approve(" + spender + ", " + amount + ");\n"
      + "            vm.stopPrank();\n"
      + "        }"]
  }

  /** The allowance grant as text. */
  function ApproveBlock(spender: string, holder: string, token: string, amount: string): string
  {
    Concat(ApprovePieces(spender, holder, token, amount))
  }

  /** The calldata declaration of the call block. */
  function CalldataLine(calldata: string): string
  {
    "string memory callDataStr = \"" + calldata + "\";"
  }

  /** The low-level call of the call block. */
  function CallLine(to: string, value: string): string
  {
    "(bool success, ) = address(" + to + ").call{value: " + value + "}(callData);"
  }

  /** The pieces of everything up to and including the opening line of the
      test function: licence, pragma, imports, the IERC20 interface and a
      setUp that forks the chain at `rpcUrl`. */
  function PreamblePieces(rpcUrl: string): seq<string>
  {
    [
      "// SPDX-License-Identifier: UNLICENSED\n"
      + "pragma solidity ^0.8.13;\n"
      + "\n"
      + "import \"forge-std/console.sol\";\n"
      + "import \"forge-std/Test.sol\";\n"
      + "\n"
      + "interface IERC20 {\n"
      + "    function approve(address spender, uint256 amount) external returns (bool);\n"
      + "}\n"
      + "\n"
      + "contract SimulationTest is Test {\n"
      + "    function setUp() public {\n"
      + "      ",
      ForkCall(rpcUrl),
      "\n"
      + "    }\n"
      + "\n"
      + "    ",
      TestDeclaration,
      "\n"]
  }

  /** The preamble as text. */
  function Preamble(rpcUrl: string): string
  {
    Concat(PreamblePieces(rpcUrl))
  }

  /** The optional funding block: deal the token to the raw `sender` and,
      behind a zero-address guard, approve `spender` while pranking as the
      raw `sender`. An empty amount becomes `0`. Empty when dealing is off. */
  function DealCode(inputs: SimulationInputs): string
  {
    if inputs.shouldDealToken then Concat(DealPieces(inputs)) else ""
  }

  /** The call block: with the defaulted sender, target, value and calldata,
      prank as the sender, issue the call and log the outcome. */
  function ExecuteBlock(inputs: SimulationInputs): string
  {
    Concat(ExecutePieces(inputs))
  }

  /** The heading of the call block. */
  const Heading: string := "\n\n        // Execute Transaction\n"

  /** The end of the test function and of the contract. */
  const Closing: string := "    }\n}"

  /** The whole contract from its blocks: preamble, funding block, the call
      block under its heading, and the closing braces. */
  function Assemble(preamble: string, dealCode: string, executeBlock: string): string
  {
    preamble + dealCode + Heading + executeBlock + Closing
  }

  /** `generateSimulationTest`: the whole contract source. A Dafny function
      of the nine fields alone, so equal inputs give the identical text. */
  function GenerateSimulationTest(inputs: SimulationInputs): string
  {
    Assemble(Preamble(inputs.rpcUrl), DealCode(inputs), ExecuteBlock(inputs))
  }

  /** The funding block is empty exactly when dealing is switched off. */
  lemma DealBlockEmptyIff(inputs: SimulationInputs)
    ensures DealCode(inputs) == "" <==> !inputs.shouldDealToken
  {
    if inputs.shouldDealToken {
      ConcatHasPiece(DealPieces(inputs), 0);
    }
  }

  /** With dealing off, the token, spender and amount fields have no
      influence at all on the rendered contract. */
  lemma NoDealIgnoresTokenFields(inputs: SimulationInputs, token: string, spender: string, amount: string)
    requires !inputs.shouldDealToken
    ensures GenerateSimulationTest(inputs)
         == GenerateSimulationTest(inputs.(tokenAddress := token, spender := spender, amount := amount))
  {
  }

  /** Whatever occurs in one of the three blocks occurs in the contract. */
  lemma InAssembled(preamble: string, dealCode: string, executeBlock: string, s: string)
    requires Contains(preamble, s) || Contains(dealCode, s) || Contains(executeBlock, s)
    ensures Contains(Assemble(preamble, dealCode, executeBlock), s)
  {
    var t := Assemble(preamble, dealCode, executeBlock);
    if Contains(preamble, s) {
      ContainsWithin(preamble, s, "", dealCode + Heading + executeBlock + Closing);
      assert "" + preamble + (dealCode + Heading + executeBlock + Closing) == t;
    } else if Contains(dealCode, s) {
      ContainsWithin(dealCode, s, preamble, Heading + executeBlock + Closing);
      assert preamble + dealCode + (Heading + executeBlock + Closing) == t;
    } else {
      ContainsWithin(executeBlock, s, preamble + dealCode + Heading, Closing);
    }
  }

  /** A piece of the funding block is a piece of the contract. */
  lemma InDealCode(inputs: SimulationInputs, s: string)
    requires Contains(DealCode(inputs), s)
    ensures Contains(GenerateSimulationTest(inputs), s)
  {
    InAssembled(Preamble(inputs.rpcUrl), DealCode(inputs), ExecuteBlock(inputs), s);
  }

  /** A piece of the call block is a piece of the contract. */
  lemma InExecuteBlock(inputs: SimulationInputs, s: string)
    requires Contains(ExecuteBlock(inputs), s)
    ensures Contains(GenerateSimulationTest(inputs), s)
  {
    InAssembled(Preamble(inputs.rpcUrl), DealCode(inputs), ExecuteBlock(inputs), s);
  }

  /** A piece of the preamble is a piece of the contract. */
  lemma InPreamble(inputs: SimulationInputs, s: string)
    requires Contains(Preamble(inputs.rpcUrl), s)
    ensures Contains(GenerateSimulationTest(inputs), s)
  {
    InAssembled(Preamble(inputs.rpcUrl), DealCode(inputs), ExecuteBlock(inputs), s);
  }





  /** The pieces of the funding block, when dealing is on: the deal to the
      raw sender, then the guarded approve. */
  function DealPieces(inputs: SimulationInputs): seq<string>
  {
    var amount := OrElse(inputs.amount, "0");
    [
      "        // Deal tokens to sender\n"
      + "        ",
      DealCall(inputs.tokenAddress, inputs.sender, amount),
      "\n"
      + "        \n"
      + "        // Approve spender if specified\n"
      + "        ",
      ApproveBlock(inputs.spender, inputs.sender, inputs.tokenAddress, amount)]
  }

  /** With dealing on, the contract deals `amount` (or `0` when empty) of the
      token to the raw `sender`. */
  lemma DealCallRendered(inputs: SimulationInputs)
    requires inputs.shouldDealToken
    ensures Contains(GenerateSimulationTest(inputs),
                     "deal(" + inputs.tokenAddress + ", " + inputs.sender + ", " + OrElse(inputs.amount, "0") + ");")
  {
    DealCallInBlock(inputs);
    InDealCode(inputs, DealCall(inputs.tokenAddress, inputs.sender, OrElse(inputs.amount, "0")));
  }

  /** With dealing on, the funding block holds the `deal` call. */
  lemma DealCallInBlock(inputs: SimulationInputs)
    requires inputs.shouldDealToken
    ensures Contains(DealCode(inputs), DealCall(inputs.tokenAddress, inputs.sender, OrElse(inputs.amount, "0")))
  {
    ConcatHasPiece(DealPieces(inputs), 1);
  }

  /** With dealing on, the approve call sits inside a guard on the spender
      being non-zero, between `vm.startPrank(sender)` and `vm.stopPrank()`. */
  lemma ApproveGuardedByPrank(inputs: SimulationInputs)
    requires inputs.shouldDealToken
    ensures Contains(GenerateSimulationTest(inputs),
                     NonZeroGuard(inputs.spender) + "\n"
                     + "            " + PrankStart(inputs.sender) + "\n"
                     + "            IERC20(" + inputs.tokenAddress + ").approve(" + inputs.spender + ", " + OrElse(inputs.amount, "0") + ");\n"
                     + "            vm.stopPrank();\n"
                     + "        }")
  {
    var amount := OrElse(inputs.amount, "0");
    ApproveBlockText(inputs.spender, inputs.sender, inputs.tokenAddress, amount);
    ApproveInBlock(inputs);
    InDealCode(inputs, ApproveBlock(inputs.spender, inputs.sender, inputs.tokenAddress, amount));
  }

  /** The approval block, written out. */
  lemma ApproveBlockText(spender: string, holder: string, token: string, amount: string)
    ensures ApproveBlock(spender, holder, token, amount)
         == NonZeroGuard(spender) + "\n"
            + "            " + PrankStart(holder) + "\n"
            + "            IERC20(" + token + ").approve(" + spender + ", " + amount + ");\n"
            + "            vm.stopPrank();\n"
            + "        }"
  {
    var parts := ApprovePieces(spender, holder, token, amount);
    ConcatThree(parts[0], parts[1], parts[2]);
  }

  /** With dealing on, the funding block holds the approval block. */
  lemma ApproveInBlock(inputs: SimulationInputs)
    requires inputs.shouldDealToken
    ensures Contains(DealCode(inputs),
                     ApproveBlock(inputs.spender, inputs.sender, inputs.tokenAddress, OrElse(inputs.amount, "0")))
  {
    ConcatHasPiece(DealPieces(inputs), 3);
  }

  /** The funding block uses the raw sender: with dealing on and an empty
      sender it renders `deal(token, , amount)` and `vm.startPrank()`, not the
      `address(0)` default of the call block. */
  lemma DealUsesRawSender(inputs: SimulationInputs)
    requires inputs.shouldDealToken && inputs.sender == ""
    ensures Contains(GenerateSimulationTest(inputs), "deal(" + inputs.tokenAddress + ", , " + OrElse(inputs.amount, "0") + ");")
    ensures Contains(GenerateSimulationTest(inputs), "vm.startPrank();")
  {
    DealCallRendered(inputs);
    NoSenderText(inputs.tokenAddress, OrElse(inputs.amount, "0"));
    PrankInDealBlock(inputs);
    InDealCode(inputs, PrankStart(inputs.sender));
  }

  /** The `deal` call and the prank with an empty sender, written out. */
  lemma NoSenderText(token: string, amount: string)
    ensures DealCall(token, "", amount) == "deal(" + token + ", , " + amount + ");"
    ensures PrankStart("") == "vm.startPrank();"
  {
  }

  /** With dealing on, the funding block pranks as the raw sender. */
  lemma PrankInDealBlock(inputs: SimulationInputs)
    requires inputs.shouldDealToken
    ensures Contains(DealCode(inputs), PrankStart(inputs.sender))
  {
    var amount := OrElse(inputs.amount, "0");
    ConcatHasPiece(ApprovePieces(inputs.spender, inputs.sender, inputs.tokenAddress, amount), 1);
    ApproveInBlock(inputs);
    ContainsTransitive(DealCode(inputs), ApproveBlock(inputs.spender, inputs.sender, inputs.tokenAddress, amount),
                       PrankStart(inputs.sender));
  }

  /** The pieces of the call block: the guarded call, indented, with the
      defaulted sender, target, value and calldata. */
  function ExecutePieces(inputs: SimulationInputs): seq<string>
  {
    var safeSender := OrElse(inputs.sender, "address(0)");
    var safeTo := OrElse(inputs.to, "address(0)");
    var safeValue := OrElse(inputs.msgValue, "0");
    var safeCalldata := OrElse(inputs.calldata, "");
    ["        ", GuardedCall(safeSender, safeCalldata, safeTo, safeValue), "\n"]
  }

  /** The pieces of the guarded call: behind a guard on a non-zero sender,
      prank as the sender, log it, decode the calldata, issue the call, log
      its outcome and stop the prank. */
  function GuardedPieces(sender: string, calldata: string, to: string, value: string): seq<string>
  {
    [
      NonZeroGuard(sender),
      "\n            ",
      PrankStart(sender),
      "\n            console.log(\"Simulating call from\", ",
      sender,
      ");\n            \n            ",
      CalldataLine(calldata),
      "\n            bytes memory callData = vm.parseBytes(callDataStr);\n            \n            ",
      CallLine(to, value),
      CallOutcome]
  }

  /** The end of the guarded call: log the outcome, stop the prank and close
      the guard. */
  const CallOutcome: string :=
    "\n"
    + "            \n"
    + "            if (success) {\n"
    + "                console.log(\"Transaction Successful\");\n"
    + "            } else {\n"
    + "                console.log(\"Transaction Failed\");\n"
    + "            }\n"
    + "            \n"
    + "            vm.stopPrank();\n"
    + "        }"

  /** The guarded call as text. */
  function GuardedCall(sender: string, calldata: string, to: string, value: string): string
  {
    Concat(GuardedPieces(sender, calldata, to, value))
  }

  /** The guarded call, written out: everything from the prank to the end of
      the prank lies inside the `if` on a non-zero sender. */
  lemma GuardedCallText(sender: string, calldata: string, to: string, value: string)
    ensures GuardedCall(sender, calldata, to, value)
         == NonZeroGuard(sender) + "\n            "
            + PrankStart(sender) + "\n            console.log(\"Simulating call from\", "
            + sender + ");\n            \n            "
            + CalldataLine(calldata) + "\n            bytes memory callData = vm.parseBytes(callDataStr);\n            \n            "
            + CallLine(to, value) + CallOutcome
  {
    ConcatTen(NonZeroGuard(sender), "\n            ",
              PrankStart(sender), "\n            console.log(\"Simulating call from\", ",
              sender, ");\n            \n            ",
              CalldataLine(calldata), "\n            bytes memory callData = vm.parseBytes(callDataStr);\n            \n            ",
              CallLine(to, value), CallOutcome);
  }

  /** The call block's defaults: an empty sender or target becomes
      `address(0)`, an empty value `0` and an empty calldata the empty string
      literal; the sender guard and the prank use the defaulted sender. */
  lemma CallBlockDefaults(inputs: SimulationInputs)
    ensures Contains(GenerateSimulationTest(inputs), "if (" + OrElse(inputs.sender, "address(0)") + " != address(0)) {")
    ensures Contains(GenerateSimulationTest(inputs), "vm.startPrank(" + OrElse(inputs.sender, "address(0)") + ");")
    ensures Contains(GenerateSimulationTest(inputs), "string memory callDataStr = \"" + inputs.calldata + "\";")
    ensures Contains(GenerateSimulationTest(inputs),
                     "(bool success, ) = address(" + OrElse(inputs.to, "address(0)") + ").call{value: "
                     + OrElse(inputs.msgValue, "0") + "}(callData);")
  {
    var sender := OrElse(inputs.sender, "address(0)");
    var to, value := OrElse(inputs.to, "address(0)"), OrElse(inputs.msgValue, "0");
    assert OrElse(inputs.calldata, "") == inputs.calldata;
    CallPiecesInContract(inputs, sender, inputs.calldata, to, value);
    CallTexts(sender, inputs.calldata, to, value);
  }

  /** The contract holds the guard, the prank, the calldata line and the
      call line of the execution block. */
  lemma CallPiecesInContract(inputs: SimulationInputs, sender: string, calldata: string, to: string, value: string)
    requires sender == OrElse(inputs.sender, "address(0)") && calldata == OrElse(inputs.calldata, "")
    requires to == OrElse(inputs.to, "address(0)") && value == OrElse(inputs.msgValue, "0")
    ensures var c := GenerateSimulationTest(inputs);
            && Contains(c, NonZeroGuard(sender)) && Contains(c, PrankStart(sender))
            && Contains(c, CalldataLine(calldata)) && Contains(c, CallLine(to, value))
  {
    CallPiecesInBlock(inputs);
    InExecuteBlock(inputs, NonZeroGuard(sender));
    InExecuteBlock(inputs, PrankStart(sender));
    InExecuteBlock(inputs, CalldataLine(calldata));
    InExecuteBlock(inputs, CallLine(to, value));
  }

  /** The guard, prank, calldata and call lines, written out. */
  lemma CallTexts(sender: string, calldata: string, to: string, value: string)
    ensures NonZeroGuard(sender) == "if (" + sender + " != address(0)) {"
    ensures PrankStart(sender) == "vm.startPrank(" + sender + ");"
    ensures CalldataLine(calldata) == "string memory callDataStr = \"" + calldata + "\";"
    ensures CallLine(to, value) == "(bool success, ) = address(" + to + ").call{value: " + value + "}(callData);"
  {
  }


  /** The guarded call with the defaulted sender, calldata, target and value. */
  function SafeGuardedCall(inputs: SimulationInputs): string
  {
    GuardedCall(OrElse(inputs.sender, "address(0)"), OrElse(inputs.calldata, ""),
                OrElse(inputs.to, "address(0)"), OrElse(inputs.msgValue, "0"))
  }

  /** The call block holds the guarded call. */
  lemma GuardedInBlock(inputs: SimulationInputs)
    ensures Contains(ExecuteBlock(inputs), SafeGuardedCall(inputs))
  {
    ConcatThree("        ", SafeGuardedCall(inputs), "\n");
    ContainsInside("        ", SafeGuardedCall(inputs), "\n");
  }

  /** The execution block holds the guard, the prank, the calldata line and
      the call line, with their defaults filled in. */
  lemma CallPiecesInBlock(inputs: SimulationInputs)
    ensures var sender := OrElse(inputs.sender, "address(0)");
            && Contains(ExecuteBlock(inputs), NonZeroGuard(sender))
            && Contains(ExecuteBlock(inputs), PrankStart(sender))
            && Contains(ExecuteBlock(inputs), CalldataLine(OrElse(inputs.calldata, "")))
            && Contains(ExecuteBlock(inputs), CallLine(OrElse(inputs.to, "address(0)"), OrElse(inputs.msgValue, "0")))
  {
    var sender, calldata := OrElse(inputs.sender, "address(0)"), OrElse(inputs.calldata, "");
    var to, value := OrElse(inputs.to, "address(0)"), OrElse(inputs.msgValue, "0");
    var block, call := ExecuteBlock(inputs), GuardedCall(sender, calldata, to, value);
    GuardedInBlock(inputs);
    GuardedCallHasPieces(sender, calldata, to, value);
    ContainsTransitive(block, call, NonZeroGuard(sender));
    ContainsTransitive(block, call, PrankStart(sender));
    ContainsTransitive(block, call, CalldataLine(calldata));
    ContainsTransitive(block, call, CallLine(to, value));
  }

  /** The guarded call holds the guard, the prank, the calldata line and the
      call line. */
  lemma GuardedCallHasPieces(sender: string, calldata: string, to: string, value: string)
    ensures var call := GuardedCall(sender, calldata, to, value);
            && Contains(call, NonZeroGuard(sender)) && Contains(call, PrankStart(sender))
            && Contains(call, CalldataLine(calldata)) && Contains(call, CallLine(to, value))
  {
    TenHasPieces(NonZeroGuard(sender), "\n            ",
                 PrankStart(sender), "\n            console.log(\"Simulating call from\", ",
                 sender, ");\n            \n            ",
                 CalldataLine(calldata), "\n            bytes memory callData = vm.parseBytes(callDataStr);\n            \n            ",
                 CallLine(to, value), CallOutcome);
  }

  /** Pieces 0, 2, 6 and 8 of ten lie in their concatenation. */
  lemma TenHasPieces(a0: string, a1: string, a2: string, a3: string, a4: string,
                     a5: string, a6: string, a7: string, a8: string, a9: string)
    ensures var c := Concat([a0, a1, a2, a3, a4, a5, a6, a7, a8, a9]);
            Contains(c, a0) && Contains(c, a2) && Contains(c, a6) && Contains(c, a8)
  {
    var p := [a0, a1, a2, a3, a4, a5, a6, a7, a8, a9];
    ConcatHasPiece(p, 0);
    ConcatHasPiece(p, 2);
    ConcatHasPiece(p, 6);
    ConcatHasPiece(p, 8);
  }



  /** The whole call sits inside the guard on the defaulted sender being
      non-zero: the prank, the calldata, the call, the logging of its outcome
      and the end of the prank, before the guard's closing brace. */
  lemma CallGuardedBySender(inputs: SimulationInputs)
    ensures var sender := OrElse(inputs.sender, "address(0)");
            Contains(GenerateSimulationTest(inputs),
                     NonZeroGuard(sender) + "\n            "
                     + PrankStart(sender) + "\n            console.log(\"Simulating call from\", "
                     + sender + ");\n            \n            "
                     + CalldataLine(OrElse(inputs.calldata, ""))
                     + "\n            bytes memory callData = vm.parseBytes(callDataStr);\n            \n            "
                     + CallLine(OrElse(inputs.to, "address(0)"), OrElse(inputs.msgValue, "0")) + CallOutcome)
  {
    GuardedCallText(OrElse(inputs.sender, "address(0)"), OrElse(inputs.calldata, ""),
                    OrElse(inputs.to, "address(0)"), OrElse(inputs.msgValue, "0"));
    GuardedInBlock(inputs);
    InExecuteBlock(inputs, SafeGuardedCall(inputs));
  }

  /** With an empty sender the guard compares `address(0)` with itself, and
      the whole call lies inside that guard, so it never runs. */
  lemma EmptySenderSkipsCall(inputs: SimulationInputs)
    requires inputs.sender == ""
    ensures NonZeroGuard("address(0)") == "if (address(0) != address(0)) {"
    ensures Contains(GenerateSimulationTest(inputs),
                     NonZeroGuard("address(0)") + "\n            "
                     + PrankStart("address(0)") + "\n            console.log(\"Simulating call from\", "
                     + "address(0)" + ");\n            \n            "
                     + CalldataLine(OrElse(inputs.calldata, ""))
                     + "\n            bytes memory callData = vm.parseBytes(callDataStr);\n            \n            "
                     + CallLine(OrElse(inputs.to, "address(0)"), OrElse(inputs.msgValue, "0")) + CallOutcome)
  {
    assert OrElse(inputs.sender, "address(0)") == "address(0)";
    CallGuardedBy(inputs, "address(0)");
    ZeroGuardText();
  }

  /** `CallGuardedBySender` for a sender known in advance. */
  lemma CallGuardedBy(inputs: SimulationInputs, sender: string)
    requires OrElse(inputs.sender, "address(0)") == sender
    ensures Contains(GenerateSimulationTest(inputs),
                     NonZeroGuard(sender) + "\n            "
                     + PrankStart(sender) + "\n            console.log(\"Simulating call from\", "
                     + sender + ");\n            \n            "
                     + CalldataLine(OrElse(inputs.calldata, ""))
                     + "\n            bytes memory callData = vm.parseBytes(callDataStr);\n            \n            "
                     + CallLine(OrElse(inputs.to, "address(0)"), OrElse(inputs.msgValue, "0")) + CallOutcome)
  {
    CallGuardedBySender(inputs);
  }

  lemma ZeroGuardText()
    ensures NonZeroGuard("address(0)") == "if (address(0) != address(0)) {"
  {
  }


  /** The RPC URL is embedded verbatim in the fork call of `setUp`. */
  lemma RpcUrlEmbedded(inputs: SimulationInputs)
    ensures Contains(GenerateSimulationTest(inputs), "vm.selectFork(vm.createFork(\"" + inputs.rpcUrl + "\"));")
  {
    PreambleHasPieces(inputs.rpcUrl);
    InPreamble(inputs, ForkCall(inputs.rpcUrl));
  }

  /** The contract declares the test function `testSimulation`. */
  lemma DeclaresTestEntryPoint(inputs: SimulationInputs)
    ensures Contains(GenerateSimulationTest(inputs), "function " + TestName + "() public {")
  {
    PreambleHasPieces(inputs.rpcUrl);
    InPreamble(inputs, TestDeclaration);
  }

  /** The preamble holds the fork call and the test declaration. */
  lemma PreambleHasPieces(rpcUrl: string)
    ensures Contains(Preamble(rpcUrl), ForkCall(rpcUrl))
    ensures Contains(Preamble(rpcUrl), TestDeclaration)
  {
    ConcatHasPiece(PreamblePieces(rpcUrl), 1);
    ConcatHasPiece(PreamblePieces(rpcUrl), 3);
  }
}
