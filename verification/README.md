# Fractal engine: a verified model of its hard parts

The fractal engine is a render server with a Java client. Users submit JSON
parameters; the server checks them against a schema, queues the jobs, renders
escape-time images from user-written formulas, and hands results back over its
own packet protocol and an embedded FTP server. This project models the parts of
it where correctness is not obvious from reading one function, and proves them
with Dafny's verifier. `dafny verify dfyconfig.toml` checks everything.

## What is modelled

**The formula compiler** (`Formula`, `TokenReader`, `Yard`, `ByteCode`, `Postfix`,
`Machine`, `Compiler`, `Correctness`, `Grammar`, `ReaderRules`, `AnyFormula`,
`Parser`). `Yard` is the shunting yard as a function on its three stacks and the
emitted code; `TokenReader` is the syntax-flag reader; `ByteCode` the emitter with its static depth and the
back-patching; `Machine` the stack machine. `Parser.ParserBase`,
`ByteCode.ParserByteCode` and `TokenReader.ParserTokenReader` are the objects with
their fields and loops, each method tied to those functions. Values are abstract:
an `Algebra` supplies arithmetic, magnitude and callbacks, so no theorem depends on
complex floating point. The central result is compiler correctness: every tree over
defined names, spelled with exactly the brackets the precedence table needs, is
accepted if and only if its calls have the right argument counts, and then runs to
its meaning (`Correctness.EvaluatesToMeaning`). Below it stands the shunting-yard
lemma (`Postfix.ReadTree`): from any pending operators, reading a printed tree
appends exactly its own code. `Grammar` says which brackets those are without looking
at the table, as a grammar of levels, and `ReaderRules` says exactly which formulas the
reader accepts, without looking at its flags.

**Path simplification** (`Paths`, `CString`, `PathSteps`, `CFtpServer`,
`ClientEntry`). `Paths` says what the normal form of an absolute path is: a fold over
its segments. `CFtpServer.SimplifyPath` is the in-place buffer rewriter with its
pointers, `strstr` and `memmove`; it is shown safe and terminating on every text and
equal to the fold on absolute ones. `ClientEntry.Client` is a logged-in client whose
working directory stays simplified through directory changes, and
`ClientEntry.RealPathLeads` says exactly when the path built on disk lies where the
virtual path says below the start directory; `ClientEntry.VirtualLeads` says where that
is for every request. It may lie elsewhere, because `snprintf`
cuts it to the buffer; `ClientEntry.StaysInside` says exactly when it still lies inside
the start directory, and `ClientEntry.LeavesStart` that it leads to the start
directory's parent otherwise.

**Packets and messages** (`Bytes`, `Framing`, `ClientCommunicator`, `Messages`).
`Framing.Divide` is what a byte stream means as packets; the receive half of the
connection rebuilds exactly that, whatever pieces the socket returns, and kicks a
client if and only if its stream holds a refused header. `Messages` has the MDUD and
RCTX writers (buffers filled by an advancing position, the thumbnail from the end)
and the Java readers, with the round trips.

**Parameter schemas** (`Schema`, `SchemaFixpoint`, `SchemaElement`,
`SchemaManager`, `SchemaAcceptance`). `Schema.Verify` is what checking one element makes
of its place in a document; `SchemaAcceptance.Acceptable` and `Filled` say independently
what it accepts and what it leaves, `SchemaFixpoint.Meets` what a settled place is. For
every schema and document, whether validation passes or fails, the worklist over groups
terminates, visits no group twice, visits and hides only what groups call for, and
rewrites those places and no others. When places do not clash, validating its own
result changes nothing; what a clash is, is exact for selectors and arrays.

**The render scheduler** (`Scheduler`, `SchedulerSafety`, `SchedulerRuns`,
`SchedulerOrigins`, `FractalGen`, `PassEffects`). A state machine whose steps are the
scheduler's own small actions and, as environment steps, the clients and render threads.
The invariant holds along every
run, and with it conservation of frames, first in first out, and manual jobs first;
`FractalGen.FractalGen` is the code with its loops, and one `Update` is shown to be a
run of the machine; `PassEffects` says what each of its parts brings about.

**Escape counting** (`Escape`). The pixel loop, the histogram, and the palette
positions computed from it, in exact arithmetic.

`Sequences` holds the few facts about sequences that several of these share.

Where the code differs from what a reader would expect, the code is followed:
`?:` markers let `(a ? b) : c` through, an unsigned stack position is used, IF pops
at run time without lowering the static position, an RCTX text block that is empty
leaves the client's old text in place, one `cancelJob` call stops at the first match,
and a schema selector replaces the actuators collected before it.

## Model

| member | source | states |
|---|---|---|
| Postfix.ReadTree | Server/src/muParserC/mucParserBase.cpp:1179-1409 | From any pending operators a printed tree that fits there is read exactly when every call has the right argument count; it leaves the operators below untouched, adds its pending values and appends only its own code |
| Postfix.ApplyPending | Server/src/muParserC/mucParserBase.cpp:945-985 | Applying everything applies exactly the operators a tree left pending, and goes on with what was below |
| Postfix.ApplyPendingTighter | Server/src/muParserC/mucParserBase.cpp:1313-1350 | An operator that closes a tree applies all of the tree's pending operators before anything below them |
| Postfix.EmittedPlusOwed | Server/src/muParserC/mucParserBase.cpp:1179-1409 | The code out when a tree's last token is read, and the code its pending operators still owe, together are the tree's postfix code |
| Postfix.ReadList | Server/src/muParserC/mucParserBase.cpp:1232-1285 | A comma list is read with its argument counter raised once per comma and its trees' code in order |
| Machine.PatchTree | Server/src/muParserC/mucParserBytecode.cpp:421-454 | However ternaries nest, patching gives each IF the distance to its own ELSE and each ELSE the distance to its own ENDIF |
| Machine.FinalizedList | Server/src/muParserC/mucParserBytecode.cpp:421-454 | Finalising the code of a comma list succeeds and leaves every jump linked |
| Machine.RunTree | Server/src/muParserC/mucParserBase.cpp:1005-1176 | The linked code of a tree pushes the tree's meaning and nothing else, and goes on with the code that follows |
| Machine.TakeThen | Server/src/muParserC/mucParserBase.cpp:1052-1062 | On anything but zero, IF goes on with the branch before its own ELSE |
| Machine.TakeElse | Server/src/muParserC/mucParserBase.cpp:1052-1062 | On zero, IF lands just past its own ELSE |
| Machine.SkipElse | Server/src/muParserC/mucParserBase.cpp:1052-1062 | ELSE lands just past its own ENDIF |
| Compiler.CompileList | Server/src/muParserC/mucParserBase.cpp:1179-1409 | A printed comma list compiles if and only if its calls have the right argument counts; the final index is the number of trees |
| Compiler.RunList | Server/src/muParserC/mucParserBase.cpp:1005-1176 | A compiled list leaves the trees' meanings in order |
| Compiler.ListFits | Server/src/muParserC/mucParserBytecode.cpp:466-469 | On every branch path, at every instruction, the run neither underflows nor rises above the static position |
| Parser.HeightWithinMaximum | Server/src/muParserC/mucParserBytecode.cpp:466-469 | A run within the static positions never exceeds the recorded maximum stack size |
| ByteCode.PositionBelowMaximum | Server/src/muParserC/mucParserBytecode.cpp:100-139 | The recorded maximum is at least the static position after every prefix of the code |
| ByteCode.MaximumReached | Server/src/muParserC/mucParserBytecode.cpp:100-139 | The recorded maximum is the static position after some prefix of the code |
| ByteCode.FinalizedEffects | Server/src/muParserC/mucParserBytecode.cpp:421-454 | Finalising changes no static position and not the maximum |
| ByteCode.ParserByteCode.AddFun | Server/src/muParserC/mucParserBytecode.cpp:356-374 | Emits the call and keeps position and maximum those of the emitted code, for fixed and variadic counts |
| ByteCode.ParserByteCode.AddIfElse | Server/src/muParserC/mucParserBytecode.cpp:322-327 | Emits a marker; the counters stay those of the emitted code |
| ByteCode.ParserByteCode.Finalize | Server/src/muParserC/mucParserBytecode.cpp:421-454 | The in-place patching loop computes the patched code, or the same failure, and keeps the maximum |
| AnyFormula.AcceptedFinalises | Server/src/muParserC/mucParserBase.cpp:1370-1409 | For every token stream read without error, well formed or not, finalising succeeds and neither position nor value stack has gone below zero |
| AnyFormula.KeptByToken | Server/src/muParserC/mucParserBase.cpp:1209-1365 | Every token of every stream keeps jumps paired, the ternary counter equal to the open ternaries, and the value stack within the static position |
| TokenReader.ReadSpelled | Server/src/muParserC/mucParserTokenReader.cpp:254-299 | Wherever an operand may stand, at any bracket depth, the flags admit every token of a spelled tree and give back exactly its tokens, with the depth restored |
| TokenReader.ReadsFormula | Server/src/muParserC/mucParserTokenReader.cpp:254-299 | A spelled comma list is read to its end, brackets balanced |
| ReaderRules.ReaderDecides | Server/src/muParserC/mucParserTokenReader.cpp:254-299 | For every formula, well formed or not, the reader gives back exactly the tokens of which each may stand where it does, with brackets balanced, and an error if there are none; where a token may stand is told without flags |
| ReaderRules.SideBySide | Server/src/muParserC/mucParserTokenReader.cpp:254-299 | No accepted formula has two operands side by side |
| ReaderRules.MissingOperand | Server/src/muParserC/mucParserTokenReader.cpp:254-299 | In no accepted formula a binary operator lacks its right operand |
| ReaderRules.Balanced | Server/src/muParserC/mucParserTokenReader.cpp:254-299 | The brackets of an accepted formula balance, and none closes before it opens |
| ReaderRules.TernariesPair | Server/src/muParserC/mucParserBase.cpp:1209-1294 | Every accepted formula has as many colons as question marks |
| ReaderRules.NothingRefused | Server/src/muParserC/mucParserBase.cpp:1370-1409 | A formula of nothing is refused |
| TokenReader.ParserTokenReader.ReadNextToken | Server/src/muParserC/mucParserTokenReader.cpp:254-299 | The chain of recognisers returns the token at the cursor, or the error, and advances by one lexeme until the end |
| TokenReader.ParserTokenReader.IsBuiltIn | Server/src/muParserC/mucParserTokenReader.cpp:373-474 | Operators, brackets and ternary marks against the syntax flags, with the bracket count |
| TokenReader.ParserTokenReader.IsInfixOpTok | Server/src/muParserC/mucParserTokenReader.cpp:533-570 | A sign where no binary operator may stand |
| TokenReader.ParserTokenReader.IsFunTok | Server/src/muParserC/mucParserTokenReader.cpp:578-602 | A defined name directly before an opening bracket |
| TokenReader.ParserTokenReader.IsValTok | Server/src/muParserC/mucParserTokenReader.cpp:721-765 | Named constants first, then numbers |
| Correctness.FormulaCompiles | Server/src/muParserC/mucParserBase.cpp:1179-1409 | A spelled comma list is accepted if and only if every call has the right argument count |
| Correctness.CompiledFormula | Server/src/muParserC/mucParserBase.cpp:1005-1176 | The accepted formula's run leaves the trees' meanings in order and stays within the static positions |
| Correctness.EvaluatesToMeaning | Server/src/muParserC/mucParserBase.cpp:626-683 | Every tree over the defined names, printed with the brackets it needs, is accepted if and only if its arities match, and evaluates to its meaning |
| Correctness.Unambiguous | Server/src/muParserC/mucParserBase.cpp:626-683 | Bracketed trees with the same tokens have the same meanings |
| Correctness.BracketWorks | Server/src/muParserC/mucParserBase.cpp:626-683 | Adding brackets where the precedence table asks for them gives a tree the parser takes as it is, of the same meaning |
| Correctness.BracketKeeps | Server/src/muParserC/mucParserBase.cpp:626-683 | A tree that needs no further brackets gets none |
| Correctness.CallCompiles | Server/src/muParserC/mucParserBase.cpp:791-868 | A fixed-arity call compiles if and only if its argument count matches, a variadic one if and only if it has an argument |
| Yard.WrongCount | Server/src/muParserC/mucParserBase.cpp:791-868 | Too many and too few arguments are told apart, and the right number is taken exactly when there are as many values |
| Grammar.GrammarDecides | Server/src/muParserC/mucParserBase.cpp:626-683 | The brackets the parser asks for are those of a grammar stated level by level, without its table: or, and, comparisons, sums, products, each grouping left; signs as strong as products; powers grouping right; a ternary outside all of them |
| Grammar.FormulaRuns | Server/src/muParserC/mucParserBase.cpp:1179-1409 | Every formula of that grammar is accepted as spelled if and only if its arities match, and then runs to its meaning |
| Grammar.TwoOperators | Server/src/muParserC/mucParserBase.cpp:1313-1350 | Of any two operators between three operands, the second goes first if and only if it is the stronger one or both are powers |
| Grammar.SignAndOperator | Server/src/muParserC/mucParserBase.cpp:1313-1350 | A sign takes a whole power, and otherwise nothing but its operand |
| Grammar.ComparesMagnitudes | Server/src/muParserC/mucParserBase.cpp:1019-1042 | Comparisons and connectives are told by magnitudes, equality and arithmetic by the values, in the order written |
| Grammar.TakesBranch | Server/src/muParserC/mucParserBase.cpp:1052-1062 | A ternary gives its second branch if the condition's magnitude is nought and its first one otherwise |
| Grammar.NamesMean | Server/src/muParserC/mucParserBase.cpp:1216-1219 | A number is itself, a constant its value, a variable what its cell holds, and brackets change nothing |
| Grammar.CallPasses | Server/src/muParserC/mucParserBase.cpp:1088-1110 | A call passes the values of its arguments in order |
| Parser.ParserBase.CreateRPN | Server/src/muParserC/mucParserBase.cpp:1179-1409 | The compile loop over the three live stacks computes the compiler function, errors included |
| Parser.ParserBase.ApplyFunc | Server/src/muParserC/mucParserBase.cpp:791-868 | Applies a pending call or sign to the stacks as specified, or reports the same arity error |
| Parser.ParserBase.ApplyIfElse | Server/src/muParserC/mucParserBase.cpp:871-902 | Closes all pending ternaries on top of the stack |
| Parser.ParserBase.ParseCmdCodeBulk | Server/src/muParserC/mucParserBase.cpp:1005-1176 | The machine loop leaves its results in the thread's own slice of the buffer, returns the last, and touches no other position |
| Parser.ParserBase.Eval | Server/src/muParserC/mucParserBase.cpp:1714-1717 | Compiled or cached, an evaluation equals a fresh compile and run under the present variable values |
| Parser.ParserBase.EvalAll | Server/src/muParserC/mucParserBase.cpp:1677-1684 | All values of a comma list, in order, from position one of the buffer |
| Parser.ParserBase.EvalBulk | Server/src/muParserC/mucParserBase.cpp:1720-1773 | A bulk run gives at every offset what a fresh evaluation there would give |
| Parser.ParserBase.SetExpr | Server/src/muParserC/mucParserBase.cpp:410-425 | Refused if and only if the locale's decimal point is the argument separator, and then nothing changes; otherwise the formula is set and the cached bytecode dropped |
| Parser.ParserBase.DefineVar | Server/src/muParserC/mucParserBase.cpp:594-607 | Defines the variable if and only if the pointer is set, no constant has the name and the name is valid; then the cache is dropped, otherwise nothing changes |
| Parser.NamesGrow | Server/src/muParserC/mucParserBase.cpp:391-400 | A name is a letter or an underscore, followed by letters, underscores and digits only |
| Parser.ParserBase.DefineConst | Server/src/muParserC/mucParserBase.cpp:615-620 | Defines the constant if and only if its name is valid, and drops the cache |
| Parser.ParserBase.DefineFun | Server/src/muParserC/mucParserBase.cpp:336-362 | Defines the function if and only if pointer and name are valid, and drops the cache |
| Parser.ParserBase.DefineInfixOprt | Server/src/muParserC/mucParserBase.cpp:529-543 | Defines the sign and drops the cache |
| Parser.ParserBase.RemoveVar | Server/src/muParserC/mucParserBase.cpp:1469-1477 | Removes the variable; the cache is dropped if the variable existed and kept as it was if not |
| Parser.ParserBase.ClearVar | Server/src/muParserC/mucParserBase.cpp:1457-1461 | No variables are left and the cache is dropped |
| Parser.ParserBase.ClearFun | Server/src/muParserC/mucParserBase.cpp:1484-1488 | No functions are left and the cache is dropped |
| Parser.ParserBase.ClearConst | Server/src/muParserC/mucParserBase.cpp:1497-1502 | No constants are left and the cache is dropped |
| Parser.ParserBase.EnableBuiltInOprt | Server/src/muParserC/mucParserBase.cpp:1571-1575 | Switches the built-in operators and drops the cache |
| Parser.PrintedEvaluates | Server/src/muParserC/mucParserBase.cpp:1714-1717 | Every printed comma list is safe to evaluate; it gives its last tree's meaning if the arities match and an error if not |
| Paths.JoinSplit | Server/src/CFtpServer/CFtpServer.cpp:386-475 | Splitting at slashes and joining gives the text back |
| Paths.NormalFormStable | Server/src/CFtpServer/CFtpServer.cpp:386-475 | The normal form is absolute, leads to the same directory, and is its own normal form |
| Paths.NormalFormDecides | Server/src/CFtpServer/CFtpServer.cpp:386-475 | Two absolute paths have the same normal form if and only if they lead to the same directory |
| Paths.TargetIsClean | Server/src/CFtpServer/CFtpServer.cpp:386-475 | What a path leads to is a list of plain names: none empty, `.` or `..`, no slash of either kind |
| PathSteps.IdleStep | Server/src/CFtpServer/CFtpServer.cpp:394-397 | Replacing `//` or `/./` by `/` keeps where the path leads |
| PathSteps.PairStep | Server/src/CFtpServer/CFtpServer.cpp:424-450 | Removing a name and the first `..` after it keeps where the path leads |
| PathSteps.FinalForm | Server/src/CFtpServer/CFtpServer.cpp:452-475 | Once every rewrite is exhausted only a final slash separates the text from its normal form |
| CFtpServer.DropIdleSegments | Server/src/CFtpServer/CFtpServer.cpp:394-397 | Each of the two loops leaves no such segment but possibly the last, and keeps where the path leads |
| CFtpServer.DropFinalDot | Server/src/CFtpServer/CFtpServer.cpp:402-413 | Both passes over a final `/.`: the result ends in no `.` segment |
| CFtpServer.StepBack | Server/src/CFtpServer/CFtpServer.cpp:424-450 | One `/..` with something before it: safe on every text, strictly shorter, and on tidy rooted texts where the path leads is kept |
| CFtpServer.DropParents | Server/src/CFtpServer/CFtpServer.cpp:415-450 | The pointer loop over `/..` terminates and leaves none, keeping where the path leads |
| CFtpServer.SimplifyPath | Server/src/CFtpServer/CFtpServer.cpp:386-475 | Fails exactly on a null or empty path; stays within the text on every input, never leaves it empty or longer; an absolute path becomes its normal form |
| CString.PrintPath | Server/src/CFtpServer/CFtpServer.cpp:328-329 | Joins two texts with a slash, cut where the buffer ends |
| ClientEntry.CutLeads | Server/src/CFtpServer/CFtpServer.cpp:328-332 | A name path below a start directory, cut to the buffer, leads there if and only if nothing of a name was cut |
| ClientEntry.VirtualLeads | Server/src/CFtpServer/CFtpServer.cpp:350-384 | For every request there is a virtual path if and only if that of its destination fits, and it is that one: the working directory, the place asked for from the root, or a walk on from the working directory along what of the request fits the buffer |
| ClientEntry.NamesLead | Server/src/CFtpServer/CFtpServer.cpp:350-384 | A relative request of plain names leads to them below the working directory |
| ClientEntry.DotsLead | Server/src/CFtpServer/CFtpServer.cpp:350-384 | An empty request and `.` lead to the working directory, `..` to its parent |
| ClientEntry.RealPathIs | Server/src/CFtpServer/CFtpServer.cpp:317-348 | When the joined text fits the buffer, the path on disk is that of the start directory's names followed by the destination's, and there is none if and only if it is too long |
| ClientEntry.RealPathLeads | Server/src/CFtpServer/CFtpServer.cpp:317-348 | For every asked string the path on disk leads to the start directory's segments followed by the virtual path's if and only if the joined text fits the buffer or the virtual path is the root |
| ClientEntry.StaysInside | Server/src/CFtpServer/CFtpServer.cpp:317-348 | For every asked string the path on disk leads inside the start directory if and only if that is the root, or the cut does not come two characters into a first name that begins with two dots |
| ClientEntry.LeavesStart | Server/src/CFtpServer/CFtpServer.cpp:317-348 | Whatever is asked, where that cut does fall so the path on disk is that of the start directory's parent |
| ClientEntry.AskingOut | Server/src/CFtpServer/CFtpServer.cpp:317-348 | Counterexample, for every start directory one character short of the longest path: asking for `/..foo` from the root gives its parent |
| ClientEntry.Client.BuildVirtualPath | Server/src/CFtpServer/CFtpServer.cpp:350-384 | Returns the path of the request's destination, or null if and only if that is too long |
| ClientEntry.Client.BuildPath | Server/src/CFtpServer/CFtpServer.cpp:317-348 | Null when not logged in or when the destination's path is too long; otherwise a text that fits its buffer beside the destination's path, and below an absolute start directory exactly the path on disk, or null when that is too long |
| ClientEntry.Client.ChangeDirectory | Server/src/CFtpServer/CFtpServer.cpp:1193-1207 | Moves to the request's destination, below an absolute start directory if and only if the path on disk can be built and is a directory; the working directory stays its own normal form |
| ClientEntry.Client.ChangeToParent | Server/src/CFtpServer/CFtpServer.cpp:1229-1234 | Appends in place without overrunning the buffer; the working directory becomes its parent, the root its own |
| Bytes.NetworkOrder | Server/src/ClientCommunicator.cpp:176-184 | Words are laid out most significant byte first: their bytes compare as they do |
| Framing.WireFormat | Client/src/org/jeffreysanti/fractalengine/ServerPacket.java:106-120 | A packet is its magic number, length, reply address and kind, four bytes each, and its data; sendable up to 32MB |
| Framing.DividePacket | Client/src/org/jeffreysanti/fractalengine/ServerPacket.java:106-120 | An encoded packet comes off the stream as that packet if its data is at most 32MB, and is refused otherwise |
| Framing.DivideEncoded | Server/src/ClientCommunicator.cpp:160-226 | A sequence of encoded packets divides into exactly those packets, whatever follows |
| Framing.DivisionAccounts | Server/src/ClientCommunicator.cpp:160-226 | For every byte stream the packets' own bytes and the rest are the stream |
| Framing.DivideMore | Server/src/ClientCommunicator.cpp:160-226 | Reading on from a partial packet gives what reading everything at once gives |
| Framing.RefusedStays | Server/src/ClientCommunicator.cpp:185-195 | A refused stream stays refused and yields no further packet |
| Framing.PrefixAccepted | Server/src/ClientCommunicator.cpp:160-226 | Every prefix of what a client sends is accepted and gives a prefix of its packets |
| ClientCommunicator.ClientCommunicator.ReadHeader | Server/src/ClientCommunicator.cpp:162-204 | Reads header bytes, converts and checks a complete header, and allocates for its data |
| ClientCommunicator.ClientCommunicator.ReadData | Server/src/ClientCommunicator.cpp:205-221 | Reads data bytes and hands the packet on exactly when it is complete |
| ClientCommunicator.ClientCommunicator.Update | Server/src/ClientCommunicator.cpp:158-226 | After every pass packets delivered, packets waiting and the partial packet account for all bytes read; the client is kicked if and only if those bytes hold a refused header |
| ClientCommunicator.ClientCommunicator.HasNextPacket | Server/src/ClientCommunicator.cpp:84-106 | Delivers the waiting packets in order |
| ClientCommunicator.Received | Server/src/ClientCommunicator.cpp:84-106 | However the reads fell, and whether or not the connection is still open, a prefix of the sent packets is held, and all of them with nothing left over if and only if the last byte is in |
| Messages.FillMDUD | Server/src/DBManager.cpp:279-349 | The buffer is exactly the message layout: the thumbnail from the end and the rest from the front tile it |
| Messages.MdudFields | Server/src/DBManager.cpp:279-349 | Where each field of the layout stands |
| Messages.ReadMDUD | Client/src/org/jeffreysanti/fractalengine/PanelLibrary.java:106-118 | The reader gives back ids, status and texts; the thumbnail unless it is empty or over the limit |
| Messages.ReturnArtifacts | Server/src/FractalMandleJulia.cpp:585-647 | The artifact bytes are the counted list of image and animation note |
| Messages.FillRCTX | Server/src/DBManager.cpp:352-427 | The buffer is exactly the job id followed by the three text blocks and the artifact bytes |
| Messages.RctxFields | Server/src/DBManager.cpp:352-427 | Where each block of the layout and the number of artifacts stand |
| Messages.Context.UpdateInfoFromRCTX | Client/src/org/jeffreysanti/fractalengine/Context.java:120-174 | The reader recovers the artifact list and every non-empty text block, and keeps its old text for an empty one |
| Messages.Context.OnReceiveReply | Client/src/org/jeffreysanti/fractalengine/Context.java:256-262 | A reply updates the context if and only if it is about the context's job |
| SchemaFixpoint.SettledStays | Server/src/SchemaElement.cpp:68-422 | A place that meets its element passes and is left as it is |
| SchemaFixpoint.PassingSettles | Server/src/SchemaElement.cpp:68-422 | A passing element's place afterwards meets the element, and checking it again changes nothing and raises the same actuators |
| SchemaFixpoint.SettledIff | Server/src/SchemaElement.cpp:68-422 | A place is settled if and only if checking passes it and changes nothing |
| SchemaFixpoint.OthersKept | Server/src/SchemaElement.cpp:342-353 | A tuple's elements touch no place but their own |
| SchemaFixpoint.SiblingsKeep | Server/src/SchemaElement.cpp:342-353 | Where siblings agree, a place one of them has settled is left as it is by the others |
| SchemaFixpoint.ActuatorsAside | Server/src/SchemaElement.cpp:68-422 | What a check makes of a place, and its problems, do not depend on the actuators collected before |
| SchemaFixpoint.SharedPlace | Server/src/SchemaElement.cpp:342-353 | Counterexample: two elements of different kinds sharing an id can pass once and then be refused |
| SchemaFixpoint.SelectedPlace | Server/src/SchemaElement.cpp:218-261 | Counterexample: a numeric sub-element called `selected` passes once and is then refused |
| SchemaFixpoint.SelectorSettlesIff | Server/src/SchemaElement.cpp:218-261 | A selector over sound sub-elements settles if and only if no sub-element in force is called `selected`, accepts a text and makes something else of it |
| SchemaFixpoint.NegativeMaximum | Server/src/SchemaElement.cpp:399-422 | Every array that may be empty and is capped below zero passes when absent and is then refused |
| SchemaFixpoint.ArraySettlesIff | Server/src/SchemaElement.cpp:399-422 | An array of a sound element settles if and only if it must hold an item or is not capped below zero |
| SchemaElement.VerifyElement | Server/src/SchemaElement.cpp:68-422 | Checking an element rewrites its own place as specified and appends its problems |
| SchemaElement.VerifyTuple | Server/src/SchemaElement.cpp:342-353 | The loop over children inside one object, made fresh if there is none |
| SchemaElement.VerifyEach | Server/src/SchemaElement.cpp:414-421 | The loop that wraps, checks and moves back each array item |
| SchemaElement.VerifySelector | Server/src/SchemaElement.cpp:218-261 | Default or chosen option, its actuators, and its sub-element beside the choice |
| SchemaAcceptance.CheckDecides | Server/src/SchemaElement.cpp:68-422 | For every element and place: the check finds no problem if and only if the place is acceptable as given, and always leaves it filled in; both told without the check, from the value given if it has the right type and the default if not |
| SchemaAcceptance.AcceptableApart | Server/src/SchemaElement.cpp:342-353 | Siblings with places of their own are acceptable one by one, as given |
| SchemaAcceptance.ChoiceKept | Server/src/SchemaElement.cpp:218-261 | A choice given as text is kept, and what stands beside it, except where a sub-element of that choice has its place |
| SchemaAcceptance.UnknownRefused | Server/src/SchemaElement.cpp:218-231 | An unknown choice is refused as it is, given or default, and raises no actuators |
| SchemaAcceptance.ActuatorsOfChoice | Server/src/SchemaElement.cpp:218-261 | The actuators in force are those of the option chosen, in place of all before; a sub-element goes on from them |
| SchemaAcceptance.AbsentDefault | Server/src/SchemaElement.cpp:60-75 | Where there is nothing the default given in the schema is put first, before a minimum |
| SchemaAcceptance.IntProblemsMean | Server/src/SchemaElement.cpp:68-85 | An integer is called zero, too large or too small if and only if the value in force is |
| SchemaAcceptance.RealProblemsMean | Server/src/SchemaElement.cpp:97-113 | The same for reals |
| SchemaAcceptance.TextProblemsMean | Server/src/SchemaElement.cpp:145-161 | The same for the length of texts |
| SchemaManager.ValidationSettles | Server/src/SchemaManager.cpp:110-183 | Where places do not clash, validating what validation made passes, visits and hides the same groups in the same order, and changes nothing |
| SchemaManager.ValidationVisits | Server/src/SchemaManager.cpp:110-183 | For every schema and document, passing or failing: no group is validated twice, each is reached from an active one along show edges of validated groups, hidden means hidden by a validated group, and none is validated after one that hides it; a failure stops at a reached group neither validated nor hidden whose own check fails |
| SchemaManager.ValidationCloses | Server/src/SchemaManager.cpp:110-183 | On success every group that is active or shown by a validated one was validated or hidden, for every schema |
| SchemaManager.ValidationOrder | Server/src/SchemaManager.cpp:110-183 | Every active group is validated before any that is only shown |
| SchemaManager.EdgesMean | Server/src/SchemaManager.cpp:69-108 | What a group shows and hides, told from the actuators its elements raise and the groups' names: a star matches every name with the rest of the pattern in it, and a hide gives way to a show of the same choice |
| SchemaManager.ActivesIff | Server/src/SchemaManager.cpp:58-67 | Validation starts from exactly the groups marked active |
| SchemaAcceptance.ValidationDecides | Server/src/SchemaManager.cpp:110-183 | The groups validated are acceptable in the document as given, and filled in afterwards; the one validation fails at is not acceptable |
| SchemaAcceptance.GroupFilledSoFar | Server/src/SchemaManager.cpp:136-179 | However its check ends, a group is filled in up to its first element that is not acceptable |
| SchemaManager.ValidationRewrites | Server/src/SchemaManager.cpp:110-183 | The document afterwards, on success and on failure: the validated groups and the one that failed are rewritten from what was given, every other place is as it was |
| SchemaManager.ValidatedAreSettled | Server/src/SchemaManager.cpp:110-183 | Where places do not clash, every validated group is settled in the final document, which calls for and hides the same groups as the one given |
| SchemaManager.InsertMatches | Server/src/SchemaManager.cpp:69-108 | Shown groups are queued in order; groups hidden and not shown by the same choice count as dealt with |
| SchemaManager.ValidateGroup | Server/src/SchemaManager.cpp:136-179 | Elements in turn, stopping at the first problem, each followed by its actuators' matches |
| SchemaManager.ValidateParamaters | Server/src/SchemaManager.cpp:110-183 | The worklist loop terminates and computes the validation function: verdict and document, also on failure |
| SchemaManager.FindConditionlessGroups | Server/src/SchemaManager.cpp:58-67 | The active groups in order |
| SchedulerSafety.KeptByStep | Server/src/FractalGen.cpp:174-256 | Every step of scheduler, clients and render threads keeps the invariant |
| SchedulerSafety.KeptByRun | Server/src/FractalGen.cpp:174-256 | So does every run |
| SchedulerSafety.KeptByLaunch | Server/src/FractalGen.cpp:346-363 | Handing a frame to a queue keeps the invariant; the frame was never handed out and is in no place before, is in one place more after, and is listed as being rendered |
| SchedulerSafety.KeptBySpawn | Server/src/FractalGen.cpp:470-505 | Starting an animation keeps the invariant; the job had none before, and exactly the frames from the second on are then waiting |
| SchedulerRuns.BoundedAndUnique | Server/src/FractalGen.cpp:174-256 | In every reachable state no more than the allowed threads run, every job or frame is in at most one place, and waiting submissions have different numbers |
| SchedulerRuns.NumbersRise | Server/src/DBManager.cpp:429-448 | Over any run the numbers given to submissions rise from the last number, so none is given twice |
| SchedulerRuns.FramesConserved | Server/src/FractalGen.cpp:334-426 | In every reachable state each frame 2..N of a live animation is in exactly one of its queue, its rendering list and the frames finished with |
| SchedulerRuns.MuxedWhenDone | Server/src/FractalGen.cpp:415-424 | Muxing starts only when every frame 2..N has been launched and has left queues and threads |
| SchedulerRuns.FirstInFirstOut | Server/src/FractalGen.cpp:233-247 | Over any run, as long as an item waits in a queue nothing that stood behind it there is ever running |
| SchedulerRuns.SpentForever | Server/src/FractalGen.cpp:147-172 | Over any run, work that has come and gone never comes back |
| SchedulerRuns.AutomaticStart | Server/src/FractalGen.cpp:233-247 | From any reachable state, an item of the automatic queue gets a thread only when the manual queue is empty and it is first in its own |
| SchedulerOrigins.QueuedAsAsked | Server/src/FractalGen.cpp:163-169 | Over every run a job waits only in the queue it was submitted for, and a later frame only in the one its animation was started for |
| SchedulerOrigins.QueuedAsSubmitted | Server/src/FractalGen.cpp:323-332 | If animations are started for their job's own queue, every item waits in the queue its job was submitted for |
| SchedulerOrigins.ManualFirst | Server/src/FractalGen.cpp:233-247 | Over every run a job submitted as automatic starts only while no posted job submitted as manual waits |
| SchedulerOrigins.CancelTakes | Server/src/FractalGen.cpp:67-103 | Cancelling removes the job's animations, and then marks its first started thread cancelled, or else removes its first item from the manual queue, or else from the automatic one, and nothing more |
| SchedulerOrigins.ReapTakes | Server/src/FractalGen.cpp:176-226 | Reaping removes one finished thread; only a frame that did not get done takes its job along |
| PassEffects.ReapsAllFinished | Server/src/FractalGen.cpp:176-226 | No finished thread is left, and every busy one is, in order |
| PassEffects.TimesOutFirst | Server/src/FractalGen.cpp:334-343 | The first animation whose time is over is cancelled, and no other; a time of nought never ends |
| PassEffects.LaunchesAll | Server/src/FractalGen.cpp:346-363 | As many frames as allowed, or all there are, are handed out, from the front, and an animation's only once those before it have none left |
| PassEffects.FramesForFreeThreads | Server/src/FractalGen.cpp:231-231 | Frames are handed out for the free threads and no more |
| PassEffects.SettlesAll | Server/src/FractalGen.cpp:364-424 | Settling leaves the unfinished animations, in order, and changes nothing else |
| PassEffects.UnfinishedMeans | Server/src/FractalGen.cpp:364-424 | Those are exactly the animations with a frame left to hand out or still busy, each listing exactly its frames still busy |
| PassEffects.StartsNext | Server/src/FractalGen.cpp:233-247 | With a thread free the first manual item starts, or the first automatic one if there is none |
| PassEffects.PostsAll | Server/src/FractalGen.cpp:253-256 | Every submission joins the end of the queue it was made for, in order |
| PassEffects.PassPosts | Server/src/FractalGen.cpp:174-290 | What was submitted before a pass is posted by it, too late to be started by it, and a request to cancel comes last |
| FractalGen.PassRuns | Server/src/FractalGen.cpp:174-256 | A whole update pass is a run of the machine |
| FractalGen.FractalGen.CancelOne | Server/src/FractalGen.cpp:67-103 | Removes the job's animations and then the first thing found among running, manual and automatic; says whether there was any |
| FractalGen.FractalGen.Reap | Server/src/FractalGen.cpp:176-226 | Removes every finished thread in order; a failed frame takes its job along |
| FractalGen.FractalGen.LaunchFrames | Server/src/FractalGen.cpp:346-363 | Hands out frames of the animations in turn, at most the given number |
| FractalGen.FractalGen.Settle | Server/src/FractalGen.cpp:364-424 | Takes finished frames off each list and removes the animations with nothing left |
| FractalGen.FractalGen.StartIfFree | Server/src/FractalGen.cpp:233-247 | With a thread free, the first manual job starts, or with no manual job the first automatic one |
| FractalGen.FractalGen.PostSubmitted | Server/src/FractalGen.cpp:253-256 | All submissions waiting in the database are taken over and posted, each to the queue `PassEffects.PostsAll` says |
| FractalGen.FractalGen.Update | Server/src/FractalGen.cpp:174-256 | One pass does exactly its five parts, is a run of the machine and keeps the invariant |
| FractalGen.FractalGen.AddAnimationToQueue | Server/src/FractalGen.cpp:323-332 | Adds the animation of a running job, once, and keeps the invariant |
| FractalGen.DBManager.SubmitJob | Server/src/DBManager.cpp:429-448 | A submission gets the next number and joins the end |
| FractalGen.DBManager.FetchSubmittedJobs | Server/src/DBManager.cpp:450-460 | Hands over all submissions in order and leaves none |
| Escape.CountMeans | Server/src/FractalMandleJulia.cpp:287-304 | Below the limit a pixel's count is k if and only if its orbit first leaves the threshold at step k |
| Escape.CountPixel | Server/src/FractalMandleJulia.cpp:287-304 | The loop that counts from one and stops past the limit computes that count |
| Escape.PassAlgoritm | Server/src/FractalMandleJulia.cpp:274-304 | Every pixel gets its count, and the histogram is the tally of the counts below the limit |
| Escape.TallyIsPixels | Server/src/FractalMandleJulia.cpp:299-304 | A tally entry is the number of pixels scanned so far with that count |
| Escape.HistogramPosition | Server/src/FractalMandleJulia.h:111-117 | The accumulating loop gives the share of pixels with a smaller count |
| Escape.PositionsInRange | Server/src/FractalMandleJulia.h:111-122 | In exact arithmetic every histogram position is on [0, 1] and picks a colour of the palette |
| Escape.PositionsRise | Server/src/FractalMandleJulia.h:111-117 | A higher count's histogram position is no lower |
| Escape.SumIsPixels | Server/src/FractalMandleJulia.h:111-117 | The histogram columns before a count add up to the number of pixels with a smaller count |
| Escape.PositionIsShare | Server/src/FractalMandleJulia.h:111-117 | A pixel's position is the share of the image's pixels with a smaller count |
| Escape.HigherCountsLater | Server/src/FractalMandleJulia.h:111-122 | A pixel with a higher count gets no earlier a colour |
| Escape.NearestEntry | Server/src/ColorPalette.cpp:71-71 | The palette entry is the nearest one on the scale from the first to the last, halves upwards |
| Escape.ScaleEnds | Server/src/ColorPalette.cpp:71-71 | Nought gives the first entry and one the last |
| Escape.IndexRises | Server/src/ColorPalette.cpp:71-71 | A higher position gives no lower an entry |
| Escape.ColorOn1Scale | Server/src/ColorPalette.cpp:58-79 | An entry of the palette for every position on the scale, and none off it |
| Escape.Ranks | Server/src/FractalMandleJulia.cpp:430-440 | The ranks are exactly the counts that occur, each once |
| Escape.FindRank | Server/src/FractalMandleJulia.h:165-174 | The search finds a count's first place in the ranking, or there is none |
| Escape.RankColor | Server/src/FractalMandleJulia.h:165-174 | A ranked count gets the entry of its own place, and a count without a place none |
| Escape.RarerCountsEarlier | Server/src/FractalMandleJulia.h:161-174 | Ranked by how often they occur, a rarer count gets no later a colour, the rarest the first entry and the commonest the last |
| Escape.RankInRange | Server/src/FractalMandleJulia.h:165-174 | With at least two ranks a rank's position is on [0, 1] and picks a colour of the palette |
| Escape.EscapedIsRanked | Server/src/FractalMandleJulia.h:165-174 | However the ranks are sorted, every escaped pixel's count is among them |

## Left out

- Assignment in formulas: the emitter stores the target in a field the machine does not read, so `=` is not part of the language modelled.
- Character-level lexing, including the reading of numbers (`2*i` is taken as an imaginary number); formulas are sequences of lexemes.
- User binary and postfix operators, string and bulk functions, variable factories, undefined-variable creation, the disabled optimiser, error positions and messages.
- Signs whose text is not that of a built-in operator.
- Grammar.GrammarDecides: signs have the strength they are given by default, that of products; for others `Correctness.EvaluatesToMeaning` says what is read with the brackets the table asks for.
- Grammar.FormulaRuns: the same.
- The value stack of the compiler is modelled by its height, since all its tokens are numeric here; a formula with no expression set is the empty formula.
- Setting the argument separator, adding value recognisers or a variable factory does not drop the cached bytecode in the program; those calls are outside the cache invariant.
- Parser.ParserBase.Eval: requires that the compiled code, if there is any, runs within its stack; printed trees always do, but the reader also accepts malformed formulas such as `a, -`, whose runs are not described.
- Parser.ParserBase.EvalAll: requires the same of the compiled code.
- Parser.ParserBase.EvalBulk: requires the same of the compiled code.
- Parser.ParserBase.ParseCmdCodeBulk: requires such safe code, for the same reason; the parallel loop around it is modelled as one call per offset.
- CFtpServer.SimplifyPath: says what an absolute path becomes; on relative and drive paths it claims safety, termination and bounds only, since there `foo/../bar` becomes `foo/bar`. Characters are classified as in the "C" locale.
- Memory allocation failure, file-system queries (whether a path is a directory is a parameter), and the rest of the FTP server.
- ClientEntry.Client.BuildPath: for a start directory that is not absolute only the bounds and the virtual path are described.
- ClientEntry.Client.ChangeDirectory: the same; whether it moves is then not decided.
- The send half of the connection, file uploads and the lock-file transport; the socket's choice of how much a read returns is nondeterministic.
- The packet being received is one object whose header fields are kept beside the raw header bytes; a complete packet moves on as a value.
- Character sets of the text blocks, JSON parsing of the received texts, image decoding, the tile list, and lengths beyond a signed 32-bit integer.
- JSON library internals: numbers are unbounded integers and exact reals, booleans are not numeric, and an exception thrown by the library is modelled as a problem that ends validation. A colour with a non-numeric entry is left as it is instead of being overwritten with uninitialised bytes. A document root that is not an object behaves as an empty one.
- Schema files that make the program exit (missing ids, unknown or nested complex types), arrays without a minimum (read uninitialised), empty actuator patterns (an exception), problem texts and addresses, keyframe validation and parameter addressing.
- SchemaManager.ValidationSettles: needs siblings that share an id to be equal or of one scalar kind, no sub-element called `selected` that accepts a text and replaces it, and no array capped below zero unless it must hold an item. For selectors and arrays this is exact (`SchemaFixpoint.SelectorSettlesIff`, `SchemaFixpoint.ArraySettlesIff`); for other siblings sharing an id it depends on which values pass both, and no exact condition is given.
- SchemaManager.ValidatedAreSettled: the same condition.
- Job rows, statuses and their races, logs, status messages, cached algorithm files, deletion and renaming of jobs, and the muxer process itself.
- Render jobs are values in the running list; the render threads' writes to them are the machine's environment steps between the scheduler's own. Frame 1 is not tracked by the animation, as in the program.
- SchedulerRuns.FirstInFirstOut: within one queue; between the queues `SchedulerRuns.AutomaticStart` is what is claimed.
- The configured number of threads is kept in sixteen unsigned bits, so a negative or larger setting wraps; the model does the same.
- Floating-point rounding everywhere; stopping a render between columns; linear, root and logarithmic shading, whose scale can leave [0, 1]; interpolated palettes and iteration bands.
- Escape.EscapedIsRanked: the library sort is any rearrangement; with a single rank the position is nought divided by nought, so `Escape.RankInRange` asks for two.
- Client user interface, image processing, and the database.
