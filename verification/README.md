# Verified model of bennu

bennu simulates field devices, their logic and the power-system models behind them. This project models
seven of its parts in Dafny and proves what they promise. Each part keeps the form of its source: objects
with mutable fields are classes, loops are methods proved against specification functions, and the
theorems are about those functions.

| part | files |
|---|---|
| expression compiler and stack machine (`cparse`) | `PrecedenceTable`, `RpnBuilder`, `ExprTree`, `CompileCorrect`, `Grouping`, `RpnMachine`, `TokenGrammar`, `ParseCorrect`, `Reading`, `StackBalance`, `AnyTokens` |
| SHA-256 (`picosha2.h`), against FIPS 180-4 | `BlockChaining`, `Sha256Spec`, `Sha256Constants`, `Sha256Block`, `Sha256Length`, `Sha256Hasher`, `Sha256Example` |
| Simulink solver and provider, over every interleaving | `SolverProtocol`, `SolverSafety`, `SolverRuns`, `SlotTexts`, `UpdateTexts` |
| C37.118 frames and the PDC client, for IEEE Std C37.118.2-2011 | `Crc16`, `Crc16Example`, `FrameWords`, `FrameHeader`, `FrameLayout`, `StatWords`, `MeasurementWords`, `DataFrames`, `DataLayout`, `ConfigUnits`, `ConfigFrames`, `ConfigLayout`, `PdcStream` |
| field-device scan cycle with delayed logic | `DelayedLogic`, `InternalTags`, `FieldDevices` |
| MTU fragmentation of published points | `PointMessages`, `Fragmentation` |
| Go device memory with freeze and unfreeze | `DeviceMemory`, `DeviceCycle` |

`Wrappers`, `Sequences`, `Bytes` and `BitOps` are shared.

Where a promise turned out false of the code, the code is kept and the exact condition is proved:

- a compiled expression that is one lone variable keeps its compile-time value (`RpnMachine.LateBinding`);
- STAT words change on the way, and only a good measurement status with fields in range is reported as sent (`StatWords.StatReported`);
- configurations with a non-zero first digital mask, a second one of 65536 or more, or a name that is not ASCII in its
  first 16 characters, are refused by their own decoder (`ConfigFrames.BuiltConfigReturns`); an analog scale of 8388608
  is reported negative and a type without a code has no word (`ConfigUnits.AnalogUnitRoundTrip`), so it cannot be sent
  (`ConfigFrames.EncodeSucceeds`);
- a header read of fewer than four bytes loses the frame (`PdcStream.Get`);
- a countdown runs as many times too fast as its tag has lines (`DelayedLogic.CountdownLasts`), so it ends early exactly
  if there is more than one line and more than one cycle left (`DelayedLogic.OnTime`); and a line whose evaluation fails
  at the end of its delay is neither updated nor released (`DelayedLogic.DelaySafety`);
- an update by another thread that arrives while the device sends its outputs can be lost (`InternalTags.ArrivalsAreSent`,
  `InternalTags.LostUpdates`);
- operands need not alternate with operators nor brackets be closed for a list to compile
  (`AnyTokens.WhichCompile`), and only some of the code is refused when it runs (`AnyTokens.WhichRun`);
- a message above the MTU that does not end with a comma loses its last point (`Fragmentation.FragmentsAreTheMessage`),
  which the subscriber notices unless the point was idle (`Fragmentation.FragmentationIsTransparent`);
- pending tags of one device that disagree, and only those, make the result depend on map iteration order
  (`DeviceMemory.OrderIsIrrelevant`);
- an update reaches the solver as it was written only if tag and value are not empty and have no colon
  (`UpdateTexts.UpdateSurvives`);
- a published name with a colon, or whose field is spelled out as the default, is read under another name
  (`SlotTexts.NameSurvives`).

What stands outside is a parameter: the meaning of operators and functions (a function that may fail), the
current time, the cut of a TCP stream into reads and the iteration order of maps (arbitrary), the results of
logic lines and the values of external points in each scan, number parsing and formatting. Floats are
opaque 32-bit words in frames and reals elsewhere. An exception is a `None` or an error value.

Code and documentation differ in a few places, and the model follows the code: `_anunit2int` accepts the scale
8388608 although its text speaks of signed 24 bits; `_digunit2int` checks the first mask twice and the second never;
the range text of `_analog2int` names 65535 but 32767 is enforced; `_digital2int` admits negative values that packing
then refuses; `set_stat` admits 65536, which cannot be sent.

## Model

| member | source | states |
|---|---|---|
| `PrecedenceTable.OppMap.constructor` | src/bennu/executables/bennu-simulink-provider-helics/cparse/shunting-yard.h:97-103 | a new table has calls, indexing and the three opening brackets, and no operator in it takes an opening bracket off the stack |
| `PrecedenceTable.OppMap.Add` | src/bennu/executables/bennu-simulink-provider-helics/cparse/shunting-yard.h:105-112 | the whole new table: a negative precedence enters the operator as right-to-left at its absolute level, nothing else changes |
| `PrecedenceTable.OppMap.AddUnary` | src/bennu/executables/bennu-simulink-provider-helics/cparse/shunting-yard.h:114-123 | the prefix entry is added, and a binary entry of the same level only if there was none, so every operator can be found by its plain name |
| `PrecedenceTable.OppMap.AddRightUnary` | src/bennu/executables/bennu-simulink-provider-helics/cparse/shunting-yard.h:125-141 | the postfix entry is added, and a binary entry of the same level only if there was none |
| `PrecedenceTable.AddAllKeepsLayered` | src/bennu/executables/bennu-simulink-provider-helics/cparse/shunting-yard.h:105-112 | however many operators are added between the level of calls and that of brackets, brackets stay loosest and calls tightest |
| `PrecedenceTable.BuiltinIsLayered` | src/bennu/executables/bennu-simulink-provider-helics/cparse/builtin-features/operations.inc:335-350 | in the operator table the calculator ships with brackets are loosest, calls and indexing are tightest and no operator takes an opening bracket off the stack |
| `PrecedenceTable.BuiltinOrder` | src/bennu/executables/bennu-simulink-provider-helics/cparse/builtin-features/operations.inc:335-354 | the built-in operators from the tightest to the loosest level, each level by name, and assignment as the only one that goes from right to left |
| `RpnBuilder.Builder.HandleOpStack` | src/bennu/executables/bennu-simulink-provider-helics/cparse/shunting-yard.cpp:121-140 | both popping loops take off exactly the operators on top whose level is below that of the new one, or equal to it when it goes from left to right, and append them to the code as the specification does |
| `RpnBuilder.Builder.HandleOperator` | src/bennu/executables/bennu-simulink-provider-helics/cparse/shunting-yard.cpp:142-202 | prefix, postfix and binary operators and both errors act on the builder state as specified, and every entry on the stack stays known to the table |
| `RpnBuilder.Builder.PushToken` | src/bennu/executables/bennu-simulink-provider-helics/cparse/shunting-yard.cpp:204-208 | the operand ends the code and the builder then expects an operator; the stack is untouched |
| `RpnBuilder.Builder.PushBracket` | src/bennu/executables/bennu-simulink-provider-helics/cparse/shunting-yard.cpp:210-215 | the bracket waits on the stack and the builder then expects an operand; the code is untouched |
| `RpnBuilder.Builder.PopBracket` | src/bennu/executables/bennu-simulink-provider-helics/cparse/shunting-yard.cpp:217-238 | closing pops to the matching bracket, adds the empty tuple right after the opening one, or reports an extra bracket |
| `RpnBuilder.Builder.Scan` | src/bennu/executables/bennu-simulink-provider-helics/cparse/shunting-yard.cpp:358-451 | one token of the scanning loop, with calls, indexing, list and map literals, against the specification function |
| `RpnBuilder.ToRPN` | src/bennu/executables/bennu-simulink-provider-helics/cparse/shunting-yard.cpp:262-475 | for every valid table and token list the imperative compiler returns what the specification function returns, errors included |
| `ExprTree.ParenthesizeFits` | src/bennu/executables/bennu-simulink-provider-helics/cparse/shunting-yard.cpp:105-140 | any tree, bracketed only where an operand does not fit its place, prints to tokens the compiler reads back, with unchanged code |
| `ExprTree.BracketsAreNeeded` | src/bennu/executables/bennu-simulink-provider-helics/cparse/shunting-yard.cpp:105-140 | none of the added brackets is superfluous: with any selection of them left out the tree no longer fits |
| `ExprTree.FittingIsKept` | src/bennu/executables/bennu-simulink-provider-helics/cparse/shunting-yard.cpp:105-140 | a tree gets no bracket if and only if it fits already |
| `CompileCorrect.FeedTree` | src/bennu/executables/bennu-simulink-provider-helics/cparse/shunting-yard.cpp:121-238 | from any state with room for it, a printed tree leaves exactly its own code and pending operators on top of what was there |
| `CompileCorrect.CompilePrinted` | src/bennu/executables/bennu-simulink-provider-helics/cparse/shunting-yard.cpp:262-475 | the code produced for a printed tree is the tree in postorder, for every sane table and every tree of binary, prefix, postfix operators, calls, indexing and literals that fits |
| `CompileCorrect.CompileParenthesized` | src/bennu/executables/bennu-simulink-provider-helics/cparse/shunting-yard.cpp:121-147 | every tree at all compiles to its own postorder, once the brackets its precedences need are printed |
| `Grouping.ChainGroups` | src/bennu/executables/bennu-simulink-provider-helics/cparse/shunting-yard.cpp:121-140 | precedence and associativity on the numbers of the table: in any chain of operands and binary operators the loosest operator, the last of its level if it goes from left to right and else the first, comes last in the code, behind the code of what stands before and after it |
| `Grouping.RootExists` | src/bennu/executables/bennu-simulink-provider-helics/cparse/shunting-yard.cpp:121-140 | every chain has such an operator |
| `Grouping.TwoBinary` | src/bennu/executables/bennu-simulink-provider-helics/cparse/shunting-yard.cpp:124-137 | of two binary operators the first takes the operand between them if the second is looser, or of the same level and left to right, and the second takes it otherwise |
| `Grouping.PrefixThenBinary` | src/bennu/executables/bennu-simulink-provider-helics/cparse/shunting-yard.cpp:142-173 | a prefix operator takes its operand before a binary one behind it under the same condition, and what the binary one has made of it otherwise |
| `Grouping.BinaryThenPostfix` | src/bennu/executables/bennu-simulink-provider-helics/cparse/shunting-yard.cpp:174-202 | the same for a postfix operator behind the right operand of a binary one |
| `Grouping.PrefixThenPostfix` | src/bennu/executables/bennu-simulink-provider-helics/cparse/shunting-yard.cpp:142-202 | and for a prefix and a postfix operator around one operand |
| `Grouping.BinaryThenPrefix` | src/bennu/executables/bennu-simulink-provider-helics/cparse/shunting-yard.cpp:142-173 | a prefix operator behind a binary one is applied first, whatever the levels |
| `Grouping.BinaryThenCall` | src/bennu/executables/bennu-simulink-provider-helics/cparse/shunting-yard.cpp:360-369 | a call behind the right operand of a binary operator takes the operand, or what the operator has made of it, by their levels |
| `Grouping.CallThenBinary` | src/bennu/executables/bennu-simulink-provider-helics/cparse/shunting-yard.cpp:121-140 | a binary operator behind a call waits for it |
| `Grouping.Brackets` | src/bennu/executables/bennu-simulink-provider-helics/cparse/shunting-yard.cpp:210-238 | the code of calls, of indexing, of an empty call and of a bracketed operand |
| `Grouping.Literals` | src/bennu/executables/bennu-simulink-provider-helics/cparse/shunting-yard.cpp:370-394 | the code of a list and of a map: a call of the constructor |
| `RpnMachine.Calculate` | src/bennu/executables/bennu-simulink-provider-helics/cparse/shunting-yard.cpp:494-616 | the evaluation loop computes the specified run of the stack machine, or its error |
| `RpnMachine.PostorderComputes` | src/bennu/executables/bennu-simulink-provider-helics/cparse/shunting-yard.cpp:500-613 | running the code of a tree on any stack pushes exactly the entry of the tree, before whatever code follows |
| `RpnMachine.EvaluatePrinted` | src/bennu/executables/bennu-simulink-provider-helics/cparse/shunting-yard.cpp:652-660 | any tree, printed with the brackets it needs, compiled under one scope and evaluated under another, gives the tree entry, references read as stored |
| `RpnMachine.LateBinding` | src/bennu/executables/bennu-simulink-provider-helics/cparse/shunting-yard.h:288-303 | for any tree, printed with the brackets it needs, the result is its recursive value with every variable read late, if and only if the expression is not one lone variable that was rebound after compilation |
| `Grouping.LeftToRight` | src/bennu/executables/bennu-simulink-provider-helics/cparse/shunting-yard.cpp:494-616 | evaluating x op y op z applies op to x and y, and then to the result and z, if op goes from left to right |
| `RpnMachine.StaleVariableExample` | src/bennu/executables/bennu-simulink-provider-helics/cparse/shunting-yard.cpp:66-81 | the failing case: x compiled as 1 and evaluated with x bound to 2 still gives 1 |
| `TokenGrammar.TightCallsGrammar` | src/bennu/executables/bennu-simulink-provider-helics/cparse/shunting-yard.cpp:121-140 | where no operator binds tighter than calls, as in the built-in table, the grammar below is alternation, matched brackets and literals only after operators that a call does not take |
| `ParseCorrect.ParseCorrect` | src/bennu/executables/bennu-simulink-provider-helics/cparse/shunting-yard.cpp:262-475 | for every sane table, every well-formed token list is the print of a tree that fits, and compiles to its postorder |
| `ParseCorrect.GrammarIsExact` | src/bennu/executables/bennu-simulink-provider-helics/cparse/shunting-yard.cpp:262-475 | for every sane table, the token lists that alternate, match brackets, close each finished call by the next operator and place literals where a call takes nothing are exactly the prints of the trees that fit |
| `Reading.ReadPrint` | src/bennu/executables/bennu-simulink-provider-helics/cparse/shunting-yard.cpp:121-238 | reading undoes printing, for every table: a printed tree that fits is read as that tree |
| `Reading.ReadingIsUnique` | src/bennu/executables/bennu-simulink-provider-helics/cparse/shunting-yard.cpp:121-238 | a token list is the print of at most one tree that fits |
| `Reading.CompileIsRead` | src/bennu/executables/bennu-simulink-provider-helics/cparse/shunting-yard.cpp:262-475 | every well-formed token list compiles to the code of the one tree it is read as |
| `Reading.EvaluationIsMeaning` | src/bennu/executables/bennu-simulink-provider-helics/cparse/shunting-yard.cpp:262-660 | every well-formed token list evaluates to the recursive value of the tree it is read as, late-bound, if and only if that tree is not one lone rebound variable |
| `StackBalance.AlternatingRuns` | src/bennu/executables/bennu-simulink-provider-helics/cparse/shunting-yard.cpp:505-516 | for every sane table, code of a list with alternating operands and operators and matched brackets never underflows the value stack and leaves exactly one value |
| `StackBalance.StepBalances` | src/bennu/executables/bennu-simulink-provider-helics/cparse/shunting-yard.cpp:142-238 | each token that alternates is accepted, keeps the counting invariant and the correspondence of open brackets, and every operator it emits finds two values |
| `StackBalance.EveryPrefixBalances` | src/bennu/executables/bennu-simulink-provider-helics/cparse/shunting-yard.cpp:142-238 | after every prefix, values minus operators emitted minus pending operators is 1 after an operand and 0 after an operator |
| `StackBalance.CompiledBalances` | src/bennu/executables/bennu-simulink-provider-helics/cparse/shunting-yard.cpp:262-475 | every alternating token list compiles, to code in which every operator finds two values and whose balance is 1 |
| `StackBalance.SafeRuns` | src/bennu/executables/bennu-simulink-provider-helics/cparse/shunting-yard.cpp:505-596 | the balance of such code is the height of the stack it leaves |
| `AnyTokens.StepMatches` | src/bennu/executables/bennu-simulink-provider-helics/cparse/shunting-yard.cpp:142-238 | for any token, also where operands and operators do not alternate, acceptance and the next state of the flags, open brackets and value count do not depend on precedences |
| `AnyTokens.WhichCompile` | src/bennu/executables/bennu-simulink-provider-helics/cparse/shunting-yard.cpp:262-475 | a list compiles, if and only if every operator is known in the form its place asks for, every closing bracket has an open one of its kind and the last token is not a prefix operator; its code holds as many more values than operators as the tokens weigh, for every sane table |
| `AnyTokens.WhichRun` | src/bennu/executables/bennu-simulink-provider-helics/cparse/shunting-yard.cpp:505-596 | such code runs to its end only if every operator finds two values, and is refused otherwise; weight 0 or less is always refused, a free value wherever operators leave the stack is enough, and the weight is the number of values left |
| `AnyTokens.TwoOperands` | src/bennu/executables/bennu-simulink-provider-helics/cparse/shunting-yard.cpp:505-616 | so two operands in a row compile, and evaluate to the second one |
| `AnyTokens.UnclosedBracket` | src/bennu/executables/bennu-simulink-provider-helics/cparse/shunting-yard.cpp:452-475 | and an unclosed bracket is emitted as an operator, which is refused for want of a second value |
| `Sha256Constants.RoundConstantsAreCubeRoots` | src/bennu/executables/daemon/bennu-watcherd/picosha2.h:50-61 | the 64 round constants are the first 32 fractional bits of the cube roots of the listed numbers |
| `Sha256Constants.RootsAreOfTheFirstPrimes` | src/bennu/executables/daemon/bennu-watcherd/picosha2.h:50-61 | the listed numbers are the first 64 primes, each the next after the one before it |
| `Sha256Constants.InitialHashIsSquareRoots` | src/bennu/executables/daemon/bennu-watcherd/picosha2.h:63-65 | the initial hash words are the fractional bits of the square roots of the first eight primes |
| `Sha256Block.ChRefines` | src/bennu/executables/daemon/bennu-watcherd/picosha2.h:67 | on words below 2^32 the 64-bit choice, complement included, is the 32-bit one |
| `Sha256Block.MajRefines` | src/bennu/executables/daemon/bennu-watcherd/picosha2.h:69-71 | on words below 2^32 the 64-bit majority is the 32-bit one |
| `Sha256Block.RotrRefines` | src/bennu/executables/daemon/bennu-watcherd/picosha2.h:73-76 | masked 64-bit shifts rotate a 32-bit word, for all the distances used |
| `Sha256Block.Bsig0Refines` | src/bennu/executables/daemon/bennu-watcherd/picosha2.h:78 | three masked 64-bit rotations give the large sigma 0 of the standard, below 2^32 |
| `Sha256Block.Bsig1Refines` | src/bennu/executables/daemon/bennu-watcherd/picosha2.h:80 | three masked 64-bit rotations give the large sigma 1 of the standard, below 2^32 |
| `Sha256Block.Ssig0Refines` | src/bennu/executables/daemon/bennu-watcherd/picosha2.h:87 | two masked rotations and a shift give the small sigma 0 of the standard, below 2^32 |
| `Sha256Block.Ssig1Refines` | src/bennu/executables/daemon/bennu-watcherd/picosha2.h:89 | two masked rotations and a shift give the small sigma 1 of the standard, below 2^32 |
| `Sha256Block.WordRefines` | src/bennu/executables/daemon/bennu-watcherd/picosha2.h:97-102 | the word made of four bytes by 64-bit shifts is the word of the standard, which ScheduleStartsWithBlock fixes |
| `Sha256Spec.ScheduleStartsWithBlock` | src/bennu/executables/daemon/bennu-watcherd/picosha2.h:97-102 | each of the first sixteen schedule words is the big-endian number of its four bytes of the block |
| `Sha256Spec.DigestIsBigEndian` | src/bennu/executables/daemon/bennu-watcherd/picosha2.h:224-232 | each four bytes of the digest are the big-endian form of their word of the state |
| `Sha256Block.NextWordRefines` | src/bennu/executables/daemon/bennu-watcherd/picosha2.h:103-106 | one step of the message schedule, masked after a 64-bit sum, is the modular 32-bit step |
| `Sha256Block.RoundSumsAreExact` | src/bennu/executables/daemon/bennu-watcherd/picosha2.h:118-127 | no sum of a round overflows 64 bits, although only two of them are masked |
| `Sha256Block.ScheduleSumsAreExact` | src/bennu/executables/daemon/bennu-watcherd/picosha2.h:103-106 | nor does the four-term sum of a schedule word |
| `Sha256Block.RoundRefines` | src/bennu/executables/daemon/bennu-watcherd/picosha2.h:117-128 | one round in masked 64-bit words is one modular 32-bit round |
| `Sha256Block.Expand` | src/bennu/executables/daemon/bennu-watcherd/picosha2.h:95-106 | the schedule array holds the 64 schedule words of the standard, and no sum in it overflowed |
| `Sha256Block.Mix` | src/bennu/executables/daemon/bennu-watcherd/picosha2.h:108-128 | the 64 rounds leave the working variables of the standard, and no sum in them overflowed |
| `Sha256Block.AddInto` | src/bennu/executables/daemon/bennu-watcherd/picosha2.h:129-139 | the words are added into the digest in place and masked; the sum of two words below 2^32 is exact |
| `Sha256Block.HashBlock` | src/bennu/executables/daemon/bennu-watcherd/picosha2.h:91-140 | the block function replaces the hash value by its compression with the block, every word below 2^32 |
| `Sha256Length.PropagateCarry` | src/bennu/executables/daemon/bennu-watcherd/picosha2.h:238-246 | carrying keeps the value of the digits, except for multiples of 2^64 |
| `Sha256Length.AddToDataLength` | src/bennu/executables/daemon/bennu-watcherd/picosha2.h:235-247 | the four 16-bit digits denote the sum modulo 2^64, for every 64-bit n, wrap-around of the first word included |
| `Sha256Length.ShiftOrIsSum` | src/bennu/executables/daemon/bennu-watcherd/picosha2.h:255-261 | shifting a digit left by three and or-ing in the carried bits multiplies by eight and adds them |
| `Sha256Length.ShiftDigits` | src/bennu/executables/daemon/bennu-watcherd/picosha2.h:249-261 | the shifted digits denote eight times the value modulo 2^64 |
| `Sha256Length.WriteDataBitLength` | src/bennu/executables/daemon/bennu-watcherd/picosha2.h:248-268 | the eight bytes are the big-endian bit count modulo 2^64 |
| `Sha256Spec.ZeroCountIsLeast` | src/bennu/executables/daemon/bennu-watcherd/picosha2.h:205-222 | the padding uses the least number of zero bytes that fills a block |
| `Sha256Spec.PaddedLength` | src/bennu/executables/daemon/bennu-watcherd/picosha2.h:205-222 | a padded message is a whole number of blocks |
| `Sha256Hasher.LastBlocksArePadding` | src/bennu/executables/daemon/bennu-watcherd/picosha2.h:205-222 | what is hashed after the residual bytes is the padding of the whole message |
| `Sha256Hasher.Sha256OfParts` | src/bennu/executables/daemon/bennu-watcherd/picosha2.h:205-222 | hashing whole blocks first and the padded rest later is hashing the padded message |
| `Sha256Hasher.HashBlocks` | src/bennu/executables/daemon/bennu-watcherd/picosha2.h:197-201 | all whole blocks of the buffer are compressed and fewer than 64 bytes remain |
| `BlockChaining.AbsorbBlock` | src/bennu/executables/daemon/bennu-watcherd/picosha2.h:197-201 | every further block is compressed into the state that the blocks before it have left |
| `Sha256Hasher.FinishLong` | src/bennu/executables/daemon/bennu-watcherd/picosha2.h:212-221 | more than 55 residual bytes: two final blocks |
| `Sha256Hasher.FinishShort` | src/bennu/executables/daemon/bennu-watcherd/picosha2.h:216-221 | at most 55 residual bytes: one final block |
| `Sha256Hasher.Hasher.constructor` | src/bennu/executables/daemon/bennu-watcherd/picosha2.h:184-191 | a fresh hasher has absorbed nothing |
| `Sha256Hasher.Hasher.Process` | src/bennu/executables/daemon/bennu-watcherd/picosha2.h:193-203 | exactly the input is absorbed, the buffer stays under 64 bytes and the length counter stays right |
| `Sha256Hasher.Hasher.Finish` | src/bennu/executables/daemon/bennu-watcherd/picosha2.h:205-222 | the state is the hash of everything absorbed, as the standard defines it |
| `Sha256Hasher.Hasher.GetHashBytes` | src/bennu/executables/daemon/bennu-watcherd/picosha2.h:224-232 | the digest, or as many of its bytes as there is room for |
| `Sha256Hasher.HashPieces` | src/bennu/executables/daemon/bennu-watcherd/picosha2.h:193-222 | for every way of cutting the message into process calls the digest is the specified one of the whole message |
| `Sha256Hasher.HashChunked` | src/bennu/executables/daemon/bennu-watcherd/picosha2.h:298-317 | for every input and every buffer size of at least 1 the digest is the specified one |
| `Sha256Example.HashOfAbc` | src/bennu/executables/daemon/bennu-watcherd/picosha2.h:91-140 | the hash of the three letters abc is the one that FIPS 180-4 gives as an example, through all 64 rounds |
| `SolverSafety.SlotsStep` | src/bennu/executables/bennu-simulink-provider-helics/solver/modelHooks.c:197-213 | slot by slot writing keeps the slots a mix of the newest and the previous snapshot, split at the writing position |
| `SolverSafety.SolverQueue` | src/bennu/executables/bennu-simulink-provider-helics/solver/modelHooks.c:216-242 | draining keeps accepted = consumed + queued and never ends a step inside a batch |
| `SolverSafety.SolverStep` | src/bennu/executables/bennu-simulink-provider-helics/solver/modelHooks.c:116-154 | every step of init and step keeps the whole invariant |
| `SolverSafety.ServerStep` | src/bennu/executables/bennu-simulink-provider/main.cpp:132-176 | starting up and accepting requests keeps the whole invariant |
| `SolverSafety.ReaderStep` | src/bennu/executables/bennu-simulink-provider/main.cpp:179-233 | every step of query, read and publishData, by either thread, keeps the whole invariant |
| `SolverSafety.WriterStep` | src/bennu/executables/bennu-simulink-provider/main.cpp:236-288 | every step of write, with success or failure of each record, keeps the whole invariant |
| `SolverSafety.InvStep` | src/bennu/executables/bennu-simulink-provider/main.cpp:179-320 | whichever thread moves, the invariant holds afterwards |
| `SolverRuns.ReachableInv` | src/bennu/executables/bennu-simulink-provider-helics/solver/modelHooks.c:83-120 | every state that any interleaving reaches satisfies the invariant |
| `SolverRuns.SnapshotAtomicity` | src/bennu/executables/bennu-simulink-provider/main.cpp:179-233 | every finished query, read or publishData saw one single publication, none before init wrote the first, and none older than an earlier request saw |
| `SolverRuns.ScanOfTag` | src/bennu/executables/bennu-simulink-provider/main.cpp:207-225 | stopping at the tag finds the first slot of that name, or none |
| `SolverRuns.SemaphoreConservation` | src/bennu/executables/bennu-simulink-provider-helics/solver/modelHooks.c:118-154 | value plus holders is 1 for both semaphores, and the mutex has at most one holder |
| `SolverRuns.BatchAtomicity` | src/bennu/executables/bennu-simulink-provider/main.cpp:240-288 | records of an acknowledged request stand together, are consumed in the order they were accepted in, each once, all within one solver step |
| `SolverRuns.FailedPutsAreReported` | src/bennu/executables/bennu-simulink-provider/main.cpp:264-288 | a write request, with anything at all happening meanwhile, is acknowledged if and only if none of its puts failed, and then all its records are in the queue; otherwise those before the first failure are, nothing is put after it, and the answer is an error |
| `SolverRuns.StepLeavesQueueEmpty` | src/bennu/executables/bennu-simulink-provider-helics/solver/modelHooks.c:152-154 | when a step has drained the queue, everything accepted, and so every acknowledged batch, has been consumed |
| `SolverRuns.LockOrder` | src/bennu/executables/bennu-simulink-provider/main.cpp:240-248 | a thread asks only for locks above all those it holds: updates, then mutex, then publish |
| `SolverRuns.NoDeadlock` | src/bennu/executables/bennu-simulink-provider/main.cpp:182-183 | from every thread in every reachable state, following lock holders leads within four threads to one that can move |
| `SlotTexts.ReadDto` | src/bennu/executables/bennu-simulink-provider/main.cpp:54-84 | the text is parsed as specified, or refused if it lacks one of its two colons |
| `SlotTexts.NameSurvives` | src/bennu/executables/bennu-simulink-provider/main.cpp:186-195 | what is published can always be parsed, and name, type and value are read back as published, if and only if the name has no colon and the part after its first dot is not the default field |
| `SlotTexts.ReadableSlots` | src/bennu/executables/bennu-simulink-provider/main.cpp:54-84 | the slots before the first malformed one are all slots, if and only if none is malformed |
| `SlotTexts.Read` | src/bennu/executables/bennu-simulink-provider/main.cpp:201-233 | the tag is looked up in the slots before the first malformed one, where the provider exits; without such a slot a tag that is not there is answered as an error |
| `SlotTexts.QueryAndPublish` | src/bennu/executables/bennu-simulink-provider/main.cpp:179-198 | one pass over the slots makes both answers of the snapshot, the names and the names with values, or exits at a malformed slot; QueryIsSplit and PublishedValuesArrive say what they mean |
| `SlotTexts.QueryIsSplit` | src/bennu/executables/bennu-simulink-provider/main.cpp:184-197 | split at its commas, the query answer gives the names of the slots in order, and an empty last part |
| `SlotTexts.PublishedValuesArrive` | src/bennu/executables/bennu-simulink-provider/main.cpp:305-319 | a subscriber that handles the published message leaves each name it knows with the value of the last slot of that name whose value can be read, and knows no other names than before |
| `SlotTexts.ReadFindsFirst` | src/bennu/executables/bennu-simulink-provider/main.cpp:207-232 | read answers with the value of the first slot of that name, and with an error if there is none |
| `SlotTexts.PublishedSlots` | src/bennu/executables/bennu-simulink-provider-helics/solver/modelHooks.c:197-213 | what the solver formats under readable names is what the provider reads, slot by slot, name, type and value |
| `SlotTexts.DefaultField` | src/bennu/executables/bennu-simulink-provider/main.cpp:54-84 | a name without a field has the default field, and reads the same when that is spelled out |
| `UpdateTexts.Write` | src/bennu/executables/bennu-simulink-provider/main.cpp:241-266 | the loop over the tags of a request, in whatever order, makes one record for each, when no put fails |
| `UpdateTexts.ApplyUpdates` | src/bennu/executables/bennu-simulink-provider-helics/solver/modelHooks.c:225-237 | the loop of the solver takes the first and the third token of each record, skipping empty ones as strtok does |
| `UpdateTexts.UpdateSurvives` | src/bennu/executables/bennu-simulink-provider-helics/solver/modelHooks.c:226-234 | the solver updates the tag that was written with the value that was written, truth values as digits, if and only if neither is empty or has a colon |
| `UpdateTexts.RequestSurvives` | src/bennu/executables/bennu-simulink-provider/main.cpp:236-288 | a whole request reaches the solver pair by pair and in order, if and only if all its tags and values are like that |
| `Crc16.BitStepIsInjective` | src/pybennu/pybennu/pypmu/synchrophasor/frame.py:46-50 | the bitwise step of the check register has an inverse |
| `Crc16.BitStepIsSurjective` | src/pybennu/pybennu/pypmu/synchrophasor/frame.py:46-50 | the inverse undoes the step on the other side too, so the step is a bijection of the 16-bit register |
| `Crc16.CheckIsZeroRemainder` | src/pybennu/pybennu/pypmu/synchrophasor/frame.py:635-643 | a frame passes the check if and only if dividing the whole of it, check word included, leaves no remainder |
| `Crc16.AppendedCheckIsValid` | src/pybennu/pybennu/pypmu/synchrophasor/frame.py:671-674 | what encoding appends is accepted |
| `Crc16.BurstDetected` | src/pybennu/pybennu/pypmu/synchrophasor/frame.py:635-643 | for frames of every length, any error within 16 consecutive bits of a valid frame is rejected |
| `Crc16.NeighbouringBytesDetected` | src/pybennu/pybennu/pypmu/synchrophasor/frame.py:635-643 | so is any change confined to two neighbouring bytes, hence to one byte |
| `Crc16.BitStepKeepsParity` | src/pybennu/pybennu/pypmu/synchrophasor/frame.py:46-50 | the bitwise step keeps the parity of the register, since the generator has an even number of terms |
| `Crc16.OddErrorDetected` | src/pybennu/pybennu/pypmu/synchrophasor/frame.py:635-643 | for frames of every length, any error in an odd number of bits, wherever they are, is rejected |
| `Crc16Example.KnownCheckValue` | src/pybennu/pybennu/pypmu/synchrophasor/frame.py:46-50 | the check word of the nine digits 123456789 is 0x29b1, the known check value of this polynomial and initial value |
| `FrameWords.List2Bytes` | src/pybennu/pybennu/pypmu/synchrophasor/utils.py:36-52 | the words one after the other in big-endian form, or an overflow if one does not fit |
| `FrameWords.WordsAtReads` | src/pybennu/pybennu/pypmu/synchrophasor/frame.py:2539-2543 | reading words undoes writing them, wherever they stand in the frame |
| `FrameWords.ReadWords` | src/pybennu/pybennu/pypmu/synchrophasor/frame.py:2580-2584 | the words from the start byte on, and the start byte moved past them |
| `FrameHeader.FrasecRoundTrip` | src/pybennu/pybennu/pypmu/synchrophasor/frame.py:315-441 | every accepted fraction of second is read back with all its flags |
| `FrameHeader.FrasecWordSurvives` | src/pybennu/pybennu/pypmu/synchrophasor/frame.py:422-441 | a received time word is kept, if and only if its reserved bit is clear and its quality code is in use |
| `FrameHeader.FormatRoundTrip` | src/pybennu/pybennu/pypmu/synchrophasor/frame.py:577-632 | the four format flags survive their code |
| `FrameHeader.FramedReads` | src/pybennu/pybennu/pypmu/synchrophasor/frame.py:646-674 | sync byte, type, size, id, time and body are found where decoders look for them, the size is the byte count and the check passes |
| `FrameLayout.HeaderLayout` | src/pybennu/pybennu/pypmu/synchrophasor/frame.py:646-674 | the sync byte, type and version, size, id and time of a frame that is sent, at explicit offsets; an all-zero time is replaced by the current one |
| `StatWords.StatReads` | src/pybennu/pybennu/pypmu/synchrophasor/frame.py:1961-2037 | what is read back from a packed STAT word for arbitrary numbers in its fields: bits of a field that is too large are read in the fields above, reasons above 8 modulo 16 are refused |
| `StatWords.FieldsRead` | src/pybennu/pybennu/pypmu/synchrophasor/frame.py:1961-2037 | for fields in range, sync is inverted, the status code is doubled modulo 4 and everything else is as it was put in |
| `StatWords.StatWordNeverSurvives` | src/pybennu/pybennu/pypmu/synchrophasor/frame.py:1977-2014 | the word a receiver stores always differs from the word sent |
| `StatWords.StatReported` | src/pybennu/pybennu/pypmu/synchrophasor/frame.py:1953-2037 | yet what the receiver reports is what the sender gave, if and only if the measurement status was good, no field was out of range and the trigger reason has a name |
| `StatWords.StatFits` | src/pybennu/pybennu/pypmu/synchrophasor/frame.py:1977-2006 | the word fits 16 bits if and only if the status is one of the first two and no field reaches beyond the word |
| `StatWords.StatBits` | src/pybennu/pybennu/pypmu/synchrophasor/frame.py:1977-2006 | the weight of every field in the word, for fields in range: bit 13 is set when out of sync, and the status starts at bit 15 |
| `MeasurementWords.PhasorRoundTrip` | src/pybennu/pybennu/pypmu/synchrophasor/frame.py:2107-2174 | an accepted phasor is read back in all four formats and fits its place |
| `MeasurementWords.PhasorsRoundTrip` | src/pybennu/pybennu/pypmu/synchrophasor/frame.py:2040-2070 | every list of phasors the setter accepts is read back element by element |
| `MeasurementWords.NumberRoundTrip` | src/pybennu/pybennu/pypmu/synchrophasor/frame.py:2223-2253 | an accepted frequency or analog value is read back with its sign and fits its place |
| `MeasurementWords.NumbersRoundTrip` | src/pybennu/pybennu/pypmu/synchrophasor/frame.py:2316-2388 | every list of analog values the setter accepts is read back element by element |
| `MeasurementWords.DigitalsRoundTrip` | src/pybennu/pybennu/pypmu/synchrophasor/frame.py:2391-2431 | digital words are kept, and fit |
| `DataFrames.StreamSpanIs` | src/pybennu/pybennu/pypmu/synchrophasor/frame.py:444-477 | the byte count of a stream from its channel counts and formats |
| `DataFrames.EncodeStream` | src/pybennu/pybennu/pypmu/synchrophasor/frame.py:2478-2483 | the bytes of one stream, or an overflow |
| `DataFrames.ConvertToBytes` | src/pybennu/pybennu/pypmu/synchrophasor/frame.py:2473-2503 | the loop over the streams gives the specified frame, or an overflow; its bytes are those of DataLayout.SentLayout |
| `DataFrames.ReadStream` | src/pybennu/pybennu/pypmu/synchrophasor/frame.py:2530-2571 | the words of one stream and the start byte after it |
| `DataFrames.ConvertToFrame` | src/pybennu/pybennu/pypmu/synchrophasor/frame.py:2506-2609 | the start-byte loops and the constructor give the specified result, on every byte string |
| `DataFrames.StreamReads` | src/pybennu/pybennu/pypmu/synchrophasor/frame.py:2530-2571 | reading a stream undoes writing it and moves on by exactly its bytes |
| `DataFrames.DataRoundTrip` | src/pybennu/pybennu/pypmu/synchrophasor/frame.py:2473-2609 | for every configuration and every frame built on it that can be sent, the bytes start with the sync word of a data frame, and decoding gives the same id, time and measurement words, with STAT as StatReported says, the size field is right and the decoder stops at the check word; it is refused exactly when a trigger reason has no name |
| `DataLayout.SentLayout` | src/pybennu/pybennu/pypmu/synchrophasor/frame.py:2473-2503 | every byte of a data frame from the values it was built from: sync word, size, id and time, and for each stream STAT, phasors, frequency and its change, analog and digital values at explicit offsets, in their formats |
| `DataLayout.StreamLayout` | src/pybennu/pybennu/pypmu/synchrophasor/frame.py:2478-2497 | the same for one stream, wherever it starts |
| `DataLayout.BuildSucceeds` | src/pybennu/pybennu/pypmu/synchrophasor/frame.py:1907-1922 | a data frame is built if and only if there is an entry for each channel of each stream and every single value is in its range; of rectangular phasors only the one with both parts -32768 is refused within 16 bits |
| `DataFrames.EncodeSucceeds` | src/pybennu/pybennu/pypmu/synchrophasor/frame.py:2473-2503 | a built frame can be sent if and only if its size fits 16 bits and every STAT word does |
| `DataFrames.ValuesSurvive` | src/pybennu/pybennu/pypmu/synchrophasor/frame.py:1907-1958 | the getters of the received stream report exactly what the sender was given, if and only if its STAT fields are ones that StatReported lets through |
| `ConfigUnits.PhasorUnitRoundTrip` | src/pybennu/pybennu/pypmu/synchrophasor/frame.py:1140-1195 | an accepted phasor unit is read back |
| `ConfigUnits.AnalogUnitRoundTrip` | src/pybennu/pybennu/pypmu/synchrophasor/frame.py:1252-1324 | an accepted analog unit has a word unless its type has no code; the word is stable, and the unit is reported as given if and only if its scale is not 8388608 and its type is not the single-point alias |
| `ConfigUnits.DigitalUnitRoundTrip` | src/pybennu/pybennu/pypmu/synchrophasor/frame.py:1387-1425 | for masks of any size: the word fits 32 bits if and only if the second mask does, and the unit is read back if and only if the first mask is zero and the second fits 16 bits |
| `ConfigLayout.DigitalUnitReported` | src/pybennu/pybennu/pypmu/synchrophasor/frame.py:1419-1425 | a digital unit whose second mask fits 16 bits is reported with its first mask 65536 times too large |
| `ConfigUnits.DigitalUnitsReread` | src/pybennu/pybennu/pypmu/synchrophasor/frame.py:1697-1701 | a list of digital words can be set again if and only if every first mask is zero, and then it comes back |
| `ConfigUnits.NamesAtReads` | src/pybennu/pybennu/pypmu/synchrophasor/frame.py:1674-1677 | padded names of any characters, written in UTF-8, are read back if and only if all are ASCII, and refused otherwise |
| `ConfigFrames.BuildOk` | src/pybennu/pybennu/pypmu/synchrophasor/frame.py:750-770 | what the constructor guarantees about every field |
| `ConfigFrames.EncodeStream` | src/pybennu/pybennu/pypmu/synchrophasor/frame.py:1615-1620 | the bytes of one configuration block, or an error for a missing or too large unit word |
| `ConfigFrames.ConvertToBytes` | src/pybennu/pybennu/pypmu/synchrophasor/frame.py:1597-1626 | the loop over the streams gives the specified frame |
| `ConfigFrames.ReadNames` | src/pybennu/pybennu/pypmu/synchrophasor/frame.py:1733-1736 | the names, or a refusal at the first that is not ASCII |
| `ConfigFrames.ReadStream` | src/pybennu/pybennu/pypmu/synchrophasor/frame.py:1714-1761 | one configuration block and the start byte after it |
| `ConfigFrames.ReadStreams` | src/pybennu/pybennu/pypmu/synchrophasor/frame.py:1648-1710 | every block where the counts of the one before it put its start, or a refusal at the first bad one |
| `ConfigFrames.EncodeSucceeds` | src/pybennu/pybennu/pypmu/synchrophasor/frame.py:1597-1626 | a built configuration can be sent if and only if every analog unit has a type with a code, no second mask exceeds 32 bits and the size fits 16 bits |
| `ConfigFrames.ConvertToFrame` | src/pybennu/pybennu/pypmu/synchrophasor/frame.py:1630-1767 | for either class of configuration frame, the start-byte loops and the constructor give the specified result on every byte string, whatever frame type stands in it |
| `ConfigFrames.StreamReread` | src/pybennu/pybennu/pypmu/synchrophasor/frame.py:1655-1710 | one block is read if and only if its names are ASCII, and then can be set again if and only if its first digital masks are zero, with its words unchanged |
| `ConfigFrames.ConfigRoundTrip` | src/pybennu/pybennu/pypmu/synchrophasor/frame.py:1597-1767 | for every configuration built, with any number of streams and names of any characters, decoding restores every field, as version 1 of the class that decodes, if and only if every name is ASCII and every first digital mask is zero |
| `ConfigFrames.BuiltConfigReturns` | src/pybennu/pybennu/pypmu/synchrophasor/frame.py:1597-1767 | the same from the constructor arguments on: the frame comes back, if and only if in every stream the first 16 characters of each name are ASCII, every first mask is zero and every second mask below 65536 |
| `ConfigLayout.SentLayout` | src/pybennu/pybennu/pypmu/synchrophasor/frame.py:1597-1626 | every byte of a configuration frame from the description it was built from: the sync word of its type and version, size, id, time, time base, number of blocks, each block at the offset that the ones before it leave, and the data rate |
| `ConfigLayout.BlockLayout` | src/pybennu/pybennu/pypmu/synchrophasor/frame.py:1609-1622 | one block with ASCII names: station, id, format bits, counts, padded names, phasor, analog and digital units, nominal frequency and count, at explicit offsets |
| `PdcStream.Socket.Recv` | src/pybennu/pybennu/pypmu/synchrophasor/pdc.py:248-256 | some of the next bytes, at least one unless none are asked for or the peer has closed |
| `PdcStream.FramedIsSelfDelimiting` | src/pybennu/pybennu/pypmu/synchrophasor/frame.py:653-654 | every encoded frame announces its own length |
| `PdcStream.Get` | src/pybennu/pybennu/pypmu/synchrophasor/pdc.py:231-269 | for every way of cutting the stream, a frame that is next is returned whole with nothing beyond it consumed, if and only if the read of the four header bytes was not cut short |
| `PdcStream.GetMany` | src/pybennu/pybennu/pypmu/synchrophasor/pdc.py:247-269 | successive calls return the frames of a stream in order, each consuming its own bytes, and leave what follows |
| `DelayedLogic.CountdownsStayOk` | src/bennu/devices/modules/logic/LogicModule.cpp:92-119 | over every run every countdown is a positive number of cycles, at most the delay of a line of its tag |
| `DelayedLogic.OneLineDecides` | src/bennu/devices/modules/logic/LogicModule.cpp:77-161 | what a scan does to a tag depends on its one line only |
| `DelayedLogic.CountsDown` | src/bennu/devices/modules/logic/LogicModule.cpp:93-103 | j scans after a delay started the countdown is the remaining cycles, and the line was skipped |
| `DelayedLogic.DelaySafety` | src/bennu/devices/modules/logic/LogicModule.cpp:70-162 | a delayed line is not evaluated and its tag not updated for its number of scans; then the tag is updated, released or, if evaluation fails, tried again |
| `DelayedLogic.CountdownSpeed` | src/bennu/devices/modules/logic/LogicModule.cpp:92-103 | no line of the tag is evaluated in a scan, if and only if its countdown exceeds one cycle for every line of the tag, and then that much is taken off |
| `DelayedLogic.CountdownLasts` | src/bennu/devices/modules/logic/LogicModule.cpp:92-103 | over a run, no line of the tag is evaluated in the next j scans, if and only if j is zero or the countdown exceeds j cycles for every line of the tag |
| `DelayedLogic.OnTime` | src/bennu/devices/modules/logic/LogicModule.cpp:92-103 | so a countdown of c cycles is on time, without evaluation in the next c - 1 scans, if and only if the tag has one line or only one cycle is left |
| `DelayedLogic.TwoLinesShortenDelay` | src/bennu/devices/modules/logic/LogicModule.cpp:92-103 | with two lines a delay of two cycles is over after one |
| `FieldDevices.DataManager.AddUpdatedTag` | src/bennu/devices/field-device/DataManager.hpp:165-175 | the tag is marked updated with its value; other updates and the stored data stay |
| `FieldDevices.DataManager.UpdateInternalData` | src/bennu/devices/field-device/DataManager.hpp:210-232 | internal tags take over their updates, whatever the iteration order, and no tag appears or disappears |
| `FieldDevices.DataManager.ClearUpdatedTags` | src/bennu/devices/field-device/DataManager.hpp:234-244 | no update is left |
| `FieldDevices.LogicModule.ScanLogic` | src/bennu/devices/modules/logic/LogicModule.cpp:70-162 | the loop over the lines leaves the countdowns and updates of the specification |
| `FieldDevices.FieldDevice.ProcessOutputs` | src/bennu/devices/field-device/FieldDevice.cpp:116-124 | what was updated is sent; the internal tags take it over with what other threads have updated since; then all is cleared, later updates included |
| `FieldDevices.FieldDevice.ScanOnce` | src/bennu/devices/field-device/FieldDevice.cpp:136-141 | one scan: lines against the stored data, then sent, taken over and cleared, with updates of other threads before and after each of these |
| `FieldDevices.FieldDevice.ScanCycle` | src/bennu/devices/field-device/FieldDevice.cpp:131-153 | over any number of scans, the device goes through a run in which each line reads what internal data the scans before have left, and what is sent and the countdowns are those of DelaySafety, FiresOnce and ArrivalsAreSent |
| `InternalTags.RunExtends` | src/bennu/devices/field-device/FieldDevice.cpp:131-153 | one more scan of a run continues the countdowns and internal tags that the run has left, and later scans change nothing of earlier ones |
| `InternalTags.ResultIsCompared` | src/bennu/devices/field-device/DataManager.hpp:58-76 | in a run, the result of the only line of a tag, if no countdown keeps it waiting, is compared with the external point of the tag, else with its internal value, else with false or zero: a different result is sent, or starts the delay, and an equal one does neither |
| `InternalTags.FiresOnce` | src/bennu/devices/modules/logic/LogicModule.cpp:104-137 | a constant result of the only line of an internal tag is sent as its update in scan k + delay and in no other scan from k on |
| `InternalTags.ArrivalsAreSent` | src/bennu/devices/field-device/DataManager.hpp:165-175 | an update by another thread is sent in the scan it arrives in if it comes before the outputs are, whatever the lines say, and a tag without a line is sent in no other case; what comes between the outputs and the internal tags is taken over unsent by an internal tag |
| `InternalTags.LostUpdates` | src/bennu/devices/field-device/DataManager.hpp:234-244 | what comes between the internal tags and clearing, or right after the outputs for a tag that is not internal, has no effect on what is sent or stored in any scan |
| `PointMessages.SplitInPlace` | src/bennu/distributed/Utils.hpp:73-86 | the parts between delimiters, and what is left in the phrase |
| `PointMessages.TextOfSplit` | src/bennu/distributed/Utils.hpp:73-86 | splitting loses nothing |
| `PointMessages.SplitOfText` | src/bennu/distributed/Utils.hpp:73-86 | whole points split into themselves and an empty last part |
| `PointMessages.PointIsRead` | src/bennu/devices/modules/io/InputModule.cpp:46-76 | a point without a colon asks for nothing; otherwise its name and value are what stands around its first colon, up to a second one |
| `PointMessages.HandleText` | src/bennu/devices/modules/io/InputModule.cpp:33-77 | a message of whole points is handled like the list of its points |
| `PointMessages.InputModule.SubscriptionHandler` | src/bennu/devices/modules/io/InputModule.cpp:20-81 | the datastore after the loop over the points, malformed points and unknown names skipped |
| `Fragmentation.Publisher.Publish` | src/bennu/distributed/Publisher.cpp:21-53 | the loop sends exactly the specified fragments |
| `Fragmentation.GroupsAreTheParts` | src/bennu/distributed/Publisher.cpp:29-46 | all parts but the last are sent, in order and undivided |
| `Fragmentation.FragmentsAreTheMessage` | src/pybennu/pybennu/distributed/publisher.py:41-62 | the fragments put together are the message, if and only if it is not cut or ends with a comma |
| `Fragmentation.FragmentsAreSmall` | src/bennu/distributed/Publisher.cpp:33-45 | every fragment is below the MTU when every point with its comma is |
| `Fragmentation.FragmentsAreFull` | src/bennu/distributed/Publisher.cpp:33-45 | no message is cut more often than it must be: each fragment was closed because the first point of the next one did not fit, and only the first can be empty, exactly if the first point alone does not fit |
| `Fragmentation.FragmentationIsTransparent` | src/bennu/distributed/Publisher.cpp:21-53 | handling the fragments in order leaves the same values as handling the message, if and only if the message is not cut or its last point is unreadable, of an unknown name, or repeats the value that the points before it leave |
| `Fragmentation.TrailingCommaIsTransparent` | src/bennu/distributed/Publisher.cpp:21-53 | so a message that ends with a comma is handled as a whole, whatever it is cut into |
| `Fragmentation.LastPointIsLost` | src/bennu/distributed/Publisher.cpp:32-45 | in every other case the value of the last point never reaches the datastore |
| `DeviceMemory.MergeReplays` | src/gobennu/devices/modules/memory/memory.go:455-482 | unfreezing gives what the updates would have given outside the freeze |
| `DeviceMemory.LastWriterWins` | src/gobennu/devices/modules/memory/memory.go:285-337 | the last update of a tag decides its pending or internal value; devices are untouched |
| `DeviceMemory.StoreAgreesWithBatch` | src/gobennu/devices/modules/memory/memory.go:356-396 | in every order, the device store is the old one with the batch replayed on it |
| `DeviceMemory.AnyOrder` | src/gobennu/devices/modules/memory/memory.go:356-396 | when pending tags of one device agree, as when devices are distinct, every order sends exactly the changed devices with their new values, each once, and leaves pending exactly the tags without device or refused |
| `DeviceMemory.BatchFollowsMaps` | src/gobennu/devices/modules/memory/memory.go:356-396 | the same on the maps themselves: a device and a value are sent if and only if a pending tag leads over its module to the device and asks for that value, the device holds another and the callback takes it; a tag stays pending if and only if it leads nowhere or is refused |
| `DeviceMemory.LastWins` | src/gobennu/devices/modules/memory/memory.go:362-390 | otherwise the tag visited last decides its device |
| `DeviceMemory.OrderMatters` | src/gobennu/devices/modules/memory/memory.go:362-390 | so two disagreeing tags have two orders with different results |
| `DeviceMemory.OrderIsIrrelevant` | src/gobennu/devices/modules/memory/memory.go:356-396 | the iteration order is irrelevant for the devices, if and only if pending tags of the same device agree |
| `DeviceMemory.FreezeDefers` | src/gobennu/devices/field-device/field-device.go:117-133 | a cycle sends nothing of what logic writes in it and leaves the memory as if logic had run after the outputs |
| `DeviceMemory.EventsReplay` | src/gobennu/devices/modules/memory/memory.go:285-337 | tags written between two cycles count as if they had been written at the end of the first, whatever devices are set meanwhile |
| `DeviceMemory.DevicesAfter` | src/gobennu/devices/modules/memory/memory.go:546-560 | a device set between two cycles holds what it was last set to, any other what it held, and no device appears or disappears |
| `DeviceMemory.PendingAfterCycle` | src/gobennu/devices/field-device/field-device.go:117-133 | when the next cycle starts, the pending tags that have a device are exactly those written during the cycle before it or since, with their last values |
| `DeviceMemory.NextCycleSends` | src/gobennu/devices/field-device/field-device.go:117-133 | that cycle sends exactly the values last written since the one before it began that differ from what their devices hold by then, each device once, when the writers of one device agree |
| `DeviceMemory.NextCycleSets` | src/gobennu/devices/field-device/field-device.go:117-133 | and whether the writers agree or not, a device written to since then holds after that cycle a value last written to one of its tags, every other device is as it was when the cycle began |
| `DeviceCycle.UpdateDevices` | src/gobennu/devices/modules/memory/memory.go:398-438 | in whatever order the map yields the tags, the store is the old one with the batch replayed, and the batch is exactly the changed devices when tags of one device agree |
| `DeviceCycle.CopyOver` | src/gobennu/devices/modules/memory/memory.go:459-477 | the range loops of unfreezing are map union, the overlay winning |
| `DeviceCycle.Memory.UpdateBinaryTag` | src/gobennu/devices/modules/memory/memory.go:285-310 | frozen: only the overlay changes; otherwise only the pending or internal map; unknown tags are refused |
| `DeviceCycle.Memory.UpdateAnalogTag` | src/gobennu/devices/modules/memory/memory.go:312-337 | for analog tags, frozen: only the overlay changes; otherwise only the pending or internal map; unknown tags are refused |
| `DeviceCycle.Memory.UpdateStringTag` | src/gobennu/devices/modules/memory/memory.go:339-354 | string tags are internal only: frozen they go to the overlay, otherwise to the internal map, and unknown ones are refused |
| `DeviceCycle.Memory.Freeze` | src/gobennu/devices/modules/memory/memory.go:440-453 | updates go to an empty overlay from now on; nothing of an earlier freeze is left in it |
| `DeviceCycle.Memory.Unfreeze` | src/gobennu/devices/modules/memory/memory.go:455-482 | what was written during the freeze wins over what was there, in all maps, and updates take effect directly again |
| `DeviceCycle.Update` | src/gobennu/devices/modules/io/output-module.go:65-109 | the batch and the memory after processing every pending tag in some order |
| `DeviceCycle.Tick` | src/gobennu/devices/field-device/field-device.go:112-133 | one tick is the cycle that FreezeDefers speaks of, for binary and analog values |

## Left out

- Character-level lexing in `toRPN`, reserved words and comments, token ownership, and the bracket level that only delimits sub-expressions.
- Type-mask matching of operations, and operators that assign to the scope or return references with an origin.
- RpnMachine.LateBinding: is about operators without side effects.
- The built-in operator table is entered without the reserved-word parsers that intercept `.` and `:`.
- SHA-256 hexadecimal output, file input and the size of iterators.
- The solver's term hook, semaphores left over from an earlier process, and FIFO writes that are not record-atomic.
- SolverRuns.NoDeadlock: says that some thread can always move, not that the scheduler is fair.
- The value formats of the Simulink model interface, what a model does with an update, and records beyond MAX_MSG_LEN.
- UpdateTexts.UpdateSurvives: is about records that reach the solver whole.
- Command, header and version 3 configuration frames; conversion of phasors to polar form and scaling of frequencies in the getters.
- Negative numbers given for a STAT field or a second digital mask, whose words no frame can hold.
- Names with lone surrogates, which `str.encode` refuses.
- The getters of a configuration with a missing analog word, which fail.
- Frames are values: the setters that change one field of an existing frame are modelled through construction only.
- MeasurementWords.PhasorRoundTrip: a float is its 32-bit word, so rounding and NaN payloads are not modelled.
- PdcStream.Get: UDP and multicast reception.
- Replacement of tag names in logic text; the result of a logic line in each scan is arbitrary.
- External points that outputs write back: their values in each scan are arbitrary.
- InternalTags.ArrivalsAreSent: an update by another thread that arrives between two lines of its own tag is not modelled; before the first of them or after the last it is.
- `clearUpdatedTags` locks the mutex of the other map in each half; what a race inside the map does is not modelled.
- DelayedLogic.DelaySafety: 32-bit overflow of delay times cycle time.
- Updated binary and analog tags are one map, since a tag is one or the other.
- ZeroMQ sockets, group headers and the null byte after a published message.
- Fragmentation.Publisher.Publish: the message argument that `split` empties is not returned to the caller.
- Locks in `memory.go`: its methods run one at a time.
- HELICS, Elasticsearch, Modbus, DNP3, LabJack and serial code, daemons, shells and configuration parsing.
