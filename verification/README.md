# Verified models of four algorithms

This project models, in Dafny, four pieces of the programs in this repository and proves what each is for.

**The mJS engine** (`program/mjs/code/mjs.c`), in three parts.

- *Memory.* `Values`, `StringLayout`, `StringCompaction`, `HeapGraph`, `ArenaLayout`, `HeapLayout` and `Collector`
  model the collector on real memory words: block arenas with an intrusive free list and two mark bits in the link,
  and the buffer of owned strings as real bytes. `Liveness` says what survives with the tags written out. Marking a
  string threads every slot that refers to it into a chain through the string's first six bytes; compaction unwinds
  the chains, restores the bytes and slides the strings. A collection keeps exactly what is reachable from the roots
  that `mjs_gc` walks, cycles included, with the same meaning. `ArenaRuns` states one arena's invariant over any run
  of allocations and sweeps; `Roots` and `Mutator` the whole heap's, from a new engine on, over any run of new
  objects, properties, signatures and strings, stores, pushes and pops of roots and collections.
- *Compiler.* `Varint`, `Bytecode`, `Patching`, `Tokens`, `Syntax`, `Grammar`, `StmtGrammar` and `Parser` model the
  one-pass parser as a class that inserts bytes at a cursor and patches jumps whose operands may grow and move code.
  An accepted token sequence writes exactly one recognised tree, and the bytes emitted are that tree's code. `Reader`
  and `StmtReader` are a reference reader on token sequences; `Agreement` and `StmtAgreement` show that the parser, as
  far as its depth reaches, accepts and finds what the reader finds, and `Canonical` that the reader finds exactly the
  programs. `Precedence` and `StatementForms` say on tokens, operator by operator, how they group.
- *Machine.* `Machine` gives one step of the stack machine, `Interpreter` the loop that changes the stacks in place,
  `Evaluate` the meaning of trees by recursion (loops on fuel). `ExprRuns`, `StmtRuns` and `Programs` prove that
  running the emitted bytes does what the tree means, that statements keep the discipline of the stacks, and that
  returns restore the caller; `Operators` and `Control` say what each operator and each statement does; `Accepted`
  goes from acceptance to execution. `Splice` models arrays as property lists and `splice` as in-place moves on them.

**GNU getopt** (`program/jpegoptim/code/getopt.c`). `OptionScan` is a reference scanner that never moves anything;
`OptionForms` says what each way of writing an option reports; `OptionString` when the sign in front of the options
matters; `Getopt` is the scanner with its static variables that permutes `argv` between calls. The permutation is
invisible in what is reported, and in the end a stable partition. `--` is the delimiter of Guideline 10 in section
12.2 of POSIX.1-2017.

**The test-case minimizer** (`tool/tool/HTFuzz/afl-tmin.c`). `Reduction` and `Minimizer` model `minimize` against an
oracle: it always ends, keeps what the oracle accepts, and leaves an input of which no block of any length it tries
can be deleted.

**The BMP run-length codec** (`program/GraphicsMagick/code/coders/bmp.c`). `RunLength`, `BmpCodec` and
`RunLengthRoundTrip` model encoder and decoder on byte buffers, totality of the decoder on any stream, and exactly
when decoding gives the image back. `RunLengthForms` says what each command draws, for pixels of eight bits and of
four.

## What the code does that its comments do not say

- `let a b` and `let a,` are accepted and leave two values and none; a `let` has the stack effect of a statement exactly
  when one of its variables has no comma behind it (`Accepted.LetWithoutComma`, `Programs.LetDiscipline`).
- A name directly behind `++` or `--` counts as updated even where a new statement begins: `a++ b` is accepted, and
  running it leaves two values, the name `b` and its owner (`Accepted.BehindIncrement`, `Accepted.TwoValuesLeft`). Which
  accepted programs are proper, so that their code runs as their tree says, is settled by a condition on the tree
  (`Accepted.StmtsIff`, `Accepted.AcceptedProgramRuns`). That code which is not proper misbehaves is not stated, since it
  may never be reached (`Accepted.ImproperButNeverReached`).
- An empty block leaves no value (`Programs.EmptyBlock`).
- `parse_block` never gives its unit of depth back, so a program with more than 512 blocks is rejected even when they
  follow one another (`Parser.Pstate.MjsParse`).
- A `break` or `continue` outside any loop of a function body finds the innermost loop of the caller and leaves the call
  without returning (`Programs.CallRestores`, `Programs.BreakEscapes`); a body in which each has its loop never does that
  (`Programs.ContainedCallCompletes`). The converse is not stated, since such a statement may never be reached.
- A compound assignment yields the value from before it, and it stores even when its operation fails
  (`Evaluate.CompoundYieldsOld`).
- A leading `-` or `+` of getopt's option string is dropped on the first call only. Later calls take it for an option
  letter, and no longer see a colon behind it (`OptionString.DecodeSame`, `OptionString.AlwaysSameIff`,
  `OptionString.SignTakenForLetter`, `OptionString.ColonOverlooked`).
- With padding as wide as a row of pixels, run-length decoding stops before the last row; the writer pads to four bytes,
  so images of one or two columns and more than one row do not come back (`RunLengthRoundTrip.RoundTripIff`,
  `RunLengthRoundTrip.WriterRows`).

## Model

| member | source | states |
|---|---|---|
| Varint.RoundTrip | program/mjs/code/mjs.c:4841-4884 | decoding what was encoded gives the number back and consumes exactly its encoding, whatever bytes follow, for every 64-bit number |
| Varint.DecodeFromEncode | program/mjs/code/mjs.c:4841-4884 | the same from any bit position of the accumulator on: the low seven bits of each byte are shifted into place without loss |
| Varint.EncodeLength | program/mjs/code/mjs.c:4865-4873 | `n` bytes are enough for a number of `7 * n` bits |
| Varint.EncodeDigits | program/mjs/code/mjs.c:4875-4884 | a number is written as its digits to base 128, lowest first, with the top bit set on all but the last |
| Varint.Llen | program/mjs/code/mjs.c:4865-4873 | the loop counts exactly the bytes that encoding will write |
| Varint.EncodeAt | program/mjs/code/mjs.c:4875-4884 | the bytes of the encoding are written at the given place of the buffer and every other byte stays |
| Varint.DecodeAt | program/mjs/code/mjs.c:4841-4862 | the do-while loop returns value and length of the encoding at the front of the bytes |
| StringLayout.ReadBack | program/mjs/code/mjs.c:13684-13745 | reading a stored body gives back the string it was stored for |
| StringLayout.Terminated | program/mjs/code/mjs.c:13643-13659 | between collections the buffer is a zero and then, for every string, its length, its bytes and a zero, which is also the mark byte of the string behind it |
| StringLayout.ThreadStep | program/mjs/code/mjs.c:11287-11332 | threading one more slot onto a string rewrites its mark and its first six bytes, keeps every other byte, and keeps the chains linked: the last slot of a chain holds the bytes taken from the string |
| StringLayout.ThreadImage | program/mjs/code/mjs.c:11320-11331 | the buffer after threading is the buffer of the chunks with the slot in front of the chain |
| StringCompaction.PackedHolds | program/mjs/code/mjs.c:11354-11407 | after packing, each live string stands at its new offset with its own bytes and a clear mark |
| StringCompaction.NewOffsetsIncrease | program/mjs/code/mjs.c:11354-11407 | live strings keep their order and stay distinct, so shared strings stay shared and others do not become so |
| StringCompaction.DecodeStolen | program/mjs/code/mjs.c:11372-11391 | the six bytes saved in a slot, with two zeros behind them, suffice to decode the length of the string they came from |
| StringCompaction.CompactLive | program/mjs/code/mjs.c:11360-11397 | one live string: its stolen bytes are put back and its body slides behind what is already packed, while the rest of the buffer stays |
| StringCompaction.RelocateStep | program/mjs/code/mjs.c:11366-11388 | unwinding a chain gives every slot on it the string's new offset and leaves all other slots alone |
| Collector.Mjs.GcMarkString | program/mjs/code/mjs.c:11287-11332 | an unthreaded slot with an owned string is threaded onto that string; the buffer, the slots and the chains stay consistent |
| Collector.Mjs.GcCompactStrings | program/mjs/code/mjs.c:11354-11407 | afterwards the buffer is the packed sequence of the live strings, in their old order and with clear marks, and every threaded slot is an owned string again at the new place of its string |
| HeapGraph.MarkedIsReachable | program/mjs/code/mjs.c:11454-11469 | when marking ends, the marked cells are exactly the cells reachable from the roots |
| HeapGraph.FinishObject | program/mjs/code/mjs.c:11245-11279 | an object whose properties have all been followed is done, and everything done before stays done, cycles included |
| HeapGraph.PropertyStep | program/mjs/code/mjs.c:11266-11273 | following name and value of one more property keeps the progress of the objects whose marking is still under way |
| Collector.Mjs.GcMark | program/mjs/code/mjs.c:11334-11344 | a value is marked by its tag; only reachable cells are marked, the number of unmarked objects bounds the recursion, and what was done stays done |
| Collector.Mjs.GcMarkObject | program/mjs/code/mjs.c:11245-11279 | the object, its properties and all they refer to are marked or being marked; a marked object is not visited again |
| Collector.Mjs.GcMarkFfiSig | program/mjs/code/mjs.c:11224-11243 | a signature is marked once |
| Collector.Mjs.MarkRoots | program/mjs/code/mjs.c:11455-11463 | all roots that the collector walks, and only these, are done; the argument stack is not among them |
| HeapLayout.ChecksPass | program/mjs/code/mjs.c:11484-11503 | on a well-formed heap every pointer the collector follows passes its range check, so the collector never aborts |
| ArenaLayout.CheckPtrIsCell | program/mjs/code/mjs.c:11484-11503 | the range check accepts every cell of the arena's blocks |
| ArenaLayout.FreeListElements | program/mjs/code/mjs.c:11132-11220 | the rebuilt free list holds each unmarked cell of the kept blocks, and no other cell |
| ArenaLayout.SweepRelease | program/mjs/code/mjs.c:11205-11217 | releasing a block that is all garbage takes exactly its cells off the free list again |
| ArenaLayout.SweptClean | program/mjs/code/mjs.c:11132-11220 | after a sweep the arena is in order: the free list is a chain without duplicates inside the kept blocks, and no cell is marked |
| ArenaLayout.UsedHoldMarked | program/mjs/code/mjs.c:11205-11217 | no block with a marked cell is released |
| ArenaLayout.Taken | program/mjs/code/mjs.c:11094-11124 | taking the first free cell leaves the rest of the list a chain of free cells and zeroes exactly the cell taken |
| Collector.Mjs.MarkFreeCells | program/mjs/code/mjs.c:11143-11150 | exactly the cells on the free list get the second mark bit |
| Collector.Mjs.GcSweep | program/mjs/code/mjs.c:11132-11220 | marked cells lose their mark and keep their contents; every other cell of a kept block is on the new free list, and the words of garbage are zeroed; fully dead blocks are released, but never the last one |
| Collector.Mjs.GcNewBlock | program/mjs/code/mjs.c:11051-11070 | the cells of the new block are pushed one by one in front of the free list |
| Collector.Mjs.ArenaIsGcNeeded | program/mjs/code/mjs.c:11076-11087 | a collection is wanted exactly when at most the reserve of free cells is left |
| Collector.Mjs.GcAllocCell | program/mjs/code/mjs.c:11094-11124 | the cell returned was free or is new, is zeroed and leaves the free list; every other cell keeps its contents and the arena stays in order |
| Collector.Mjs.SweepPhase | program/mjs/code/mjs.c:11467-11469 | sweeping one arena leaves the cells and the contents of the other two alone |
| Collector.Mjs.MjsGc | program/mjs/code/mjs.c:11454-11469 | exactly the cells reachable from the roots survive: the least set that holds whatever a root, or a name or value of one of its objects, refers to by the tags object, array and foreign function; each such word keeps its value, an owned string its contents; the properties keep their order; all else is free or released; the heap is in order again |
| Liveness.ReachableIsTraced | program/mjs/code/mjs.c:11334-11344 | what the collector takes for reachable is the least set that its words, with the three referring tags written out, do not lead out of; a word of any other tag keeps no cell alive |
| Liveness.KeptWords | program/mjs/code/mjs.c:11334-11344 | every root, and every name and value of a survivor, holds what it held: an owned string by its contents, anything else as it was |
| Collector.Mjs.RootWords | program/mjs/code/mjs.c:11454-11463 | the roots are the words of the six lists the collector walks, and no others |
| HeapLayout.Conclude | program/mjs/code/mjs.c:11454-11469 | the three phases together restore the whole invariant of the heap between two collections |
| HeapLayout.CompactedMeanings | program/mjs/code/mjs.c:11465 | what a slot of a survivor refers to has the same string contents after compaction |
| HeapLayout.CompactedOrder | program/mjs/code/mjs.c:11465 | slots share a string after the collection exactly when they did before |
| HeapLayout.LiveReferenced | program/mjs/code/mjs.c:11465 | a string is kept exactly when a surviving slot refers to it |
| ArenaRuns.ArenaInit | program/mjs/code/mjs.c:11022-11030 | a new arena has one block, all of it on the free list |
| ArenaRuns.AllocTurn | program/mjs/code/mjs.c:11094-11124 | over any run: the cell given out was not in use, is zeroed, and is then the only further one in use; free and used cells still make up all cells |
| ArenaRuns.SweepTurn | program/mjs/code/mjs.c:11132-11220 | over any run: after a sweep exactly the marked cells are in use, all others are on the free list or gone with their block, and the initial block is still there |
| Mutator.MkObject | program/mjs/code/mjs.c:12098-12106 | a new object joins the heap without properties; the invariant that a collection needs holds again, and no slot has changed |
| Mutator.NewFfiSig | program/mjs/code/mjs.c:11017-11019 | the same for a signature |
| Mutator.AddProperty | program/mjs/code/mjs.c:12260-12264 | a new property with its name and value becomes the first of its object; every other list and every slot stays, and the invariant holds again |
| Mutator.StoreValue | program/mjs/code/mjs.c:12267 | storing a value whose target exists keeps the invariant |
| Mutator.MkString | program/mjs/code/mjs.c:13643-13659 | a new owned string at the end of the buffer reads back as it was, all others keep their places, and the invariant holds again |
| Mutator.SlotsAway | program/mjs/code/mjs.c:11094-11124 | no slot of the heap lies in a cell that is not one of its properties, so zeroing the cell given out loses nothing |
| Mutator.TakeCell | program/mjs/code/mjs.c:11094-11124 | a cell taken from any of the three arenas is no part of the heap, and the invariant holds again, with the other two arenas as they were |
| Roots.Create | program/mjs/code/mjs.c:8307-8338 | three arenas of one block, no stacks and the empty string buffer: the invariant holds from the start |
| Roots.RootsReady | program/mjs/code/mjs.c:11454-11463 | the invariant does not depend on which words are roots, as long as what they refer to exists and they lie outside the arenas |
| Roots.MjsPush | program/mjs/code/mjs.c:8615-8617 | a value pushed on the data stack becomes a root, and the invariant holds again |
| Roots.MjsPop | program/mjs/code/mjs.c:8592-8599 | the value on top is returned and its word is no root any more, or `undefined` when there is none; the invariant holds again |
| Roots.MjsOwn | program/mjs/code/mjs.c:8518-8520 | a word of C code becomes a root |
| Roots.MjsDisown | program/mjs/code/mjs.c:8522-8536 | one registration of the word goes, none when there is none; all other registrations stay, and the invariant holds again |
| Bytecode.FetchOfAsm | program/mjs/code/mjs.c:9257-9635 | the machine reads back exactly the instruction the compiler emitted, with its operands and its length, wherever it lies |
| Bytecode.OperandLies | program/mjs/code/mjs.c:4841-4862 | an operand that lies in the code is read with its value and its length |
| Patching.PatchedTarget | program/mjs/code/mjs.c:7887-7913 | the patched jump leads to the place the patch names |
| Patching.BytesMove | program/mjs/code/mjs.c:7895-7902 | every byte but the reserved one is found again where it moved to |
| Patching.OperandMoves | program/mjs/code/mjs.c:7887-7913 | operands that do not contain the patched byte are still read as they were |
| Patching.JumpSurvives | program/mjs/code/mjs.c:7887-7913 | an earlier jump still leads to the same instruction after a patch if and only if the code did not move or the patched byte is not strictly inside the bytes it jumps over |
| Interpreter.Interp.MjsFindScope | program/mjs/code/mjs.c:8796-8806 | the scope found owns the name and no scope further in does; none is found exactly when no scope owns it |
| Interpreter.Interp.CallStackPushFrame | program/mjs/code/mjs.c:8743-8762 | the frame saves `this`, the return address, both heights and the place of the result; `this` comes from the argument stack |
| Interpreter.Interp.CallStackRestoreFrame | program/mjs/code/mjs.c:8766-8794 | scopes and loop addresses are popped down to the saved heights, the data stack is cut behind the result, `this` is restored |
| Interpreter.Interp.ExecExpr | program/mjs/code/mjs.c:8931-9122 | an operator changes data stack and heap exactly as the specified step does |
| Interpreter.Interp.ExecStack | program/mjs/code/mjs.c:9295-9329 | jumps pop, keep or replace the top of the stack as specified |
| Interpreter.Interp.ExecLoop | program/mjs/code/mjs.c:9573-9622 | entering, continuing and breaking a loop changes scopes and loop addresses as specified |
| Interpreter.Interp.ExecCall | program/mjs/code/mjs.c:9438-9551 | calls, returns, results and arguments change the stacks as specified |
| Interpreter.Interp.MjsExecute | program/mjs/code/mjs.c:9219-9659 | running `fuel` instructions is `fuel` steps of the specified machine; an error leaves no stack higher than it was, but for the `undefined` on top of the data stack |
| Interpreter.RunForStopped | program/mjs/code/mjs.c:9636-9651 | a machine that has stopped stays as it is |
| Evaluate.LogicalAssociates | program/mjs/code/mjs.c:12487-12507 | a chain of one logical operator has the same outcome however it is nested, so nesting it to the right keeps the left-associative meaning |
| Evaluate.CompoundYieldsOld | program/mjs/code/mjs.c:8894-8905 | a compound assignment yields the value the variable had before it; when its operation fails, the statement fails and the variable has become `undefined` |
| Evaluate.ContainedStays | program/mjs/code/mjs.c:9573-9622 | a statement whose every `break` and `continue` stands inside one of its own loops never ends by looking for a loop further out |
| Evaluate.AllContainedStay | program/mjs/code/mjs.c:9573-9622 | the same for lists of statements, and so for programs and bodies of functions |
| Operators.NotValue | program/mjs/code/mjs.c:8956-8959 | `!e` is true exactly when `e` is `undefined`, `null`, `false`, zero, NaN or the empty string, and false otherwise |
| Operators.SignValue | program/mjs/code/mjs.c:8951-8970 | `-e` and `~e` are the negation and the complement of the number, and `+e` is `e` itself |
| Operators.TypeofValue | program/mjs/code/mjs.c:14370-14398 | `typeof e` is the name of the type, character by character |
| Operators.UnaryFails | program/mjs/code/mjs.c:8951-8970 | an operand that fails makes its operator fail |
| Operators.ArithmeticValue | program/mjs/code/mjs.c:8852-8892 | the operation of that very token on two numbers, left operand first; `+` joins two strings left to right; all else is a type error |
| Operators.ComparisonValue | program/mjs/code/mjs.c:8986-9009 | a comparison of the two numbers, left operand first |
| Operators.EqualityValue | program/mjs/code/mjs.c:8907-8985 | `===` holds of a value and itself unless it is NaN, and of nothing else; `!==` is its opposite; `==` and `!=` fail as not implemented |
| Operators.BinaryFails | program/mjs/code/mjs.c:8931-9009 | the left operand is evaluated first and the right one in the heap it leaves; the first to fail is the outcome |
| Operators.LogicalValue | program/mjs/code/mjs.c:12487-12507 | the logical operators yield the left value when it decides and otherwise the right one, evaluated after it |
| Operators.CondValue | program/mjs/code/mjs.c:12857-12886 | `?:` yields its second operand when the first counts as true, and its third otherwise |
| Operators.NameValue | program/mjs/code/mjs.c:8796-8806 | a name gives the value of the innermost variable of that name, and fails when there is none |
| Operators.AssignValue | program/mjs/code/mjs.c:9010-9041 | an assignment evaluates its right side, stores the value in the innermost variable of that name, and yields it |
| Operators.AssignFails | program/mjs/code/mjs.c:9010-9041 | an assignment to a name that nobody owns fails before its right side is looked at; otherwise a failing right side is the outcome |
| Operators.CompoundValue | program/mjs/code/mjs.c:8894-8905 | each of the eleven compound assignments stores the result of its own operator on the variable and the right side, and yields the variable's value from before; what cannot be combined fails and leaves `undefined` |
| Operators.CrementValue | program/mjs/code/mjs.c:9043-9094 | `++` and `--` store one more and one less; in front of the name they yield the new value, behind it the old one |
| Operators.CrementFails | program/mjs/code/mjs.c:9043-9094 | of anything but a number they fail and leave `undefined` |
| Operators.LiteralValues | program/mjs/code/mjs.c:12661-12735 | each literal stands for its value |
| Control.IfMeans | program/mjs/code/mjs.c:13206-13254 | the branch in front of `else` runs when the condition counts as true, the one behind it otherwise; without `else` that gives `undefined` |
| Control.ListMeans | program/mjs/code/mjs.c:12541-12552 | statements run in order up to the first that does not end normally, and the last one's value is the list's |
| Control.ReturnMeans | program/mjs/code/mjs.c:13256-13264 | `return` hands the value of its expression, or `undefined`, to the caller |
| Control.LetMeans | program/mjs/code/mjs.c:12899-12929 | `let x = e` creates `x` in the innermost scope, evaluates `e` with it there and stores the value; then the name gives that value |
| Control.LetKeeps | program/mjs/code/mjs.c:9335-9342 | without an initialiser a variable keeps the value it had in this very scope, or becomes `undefined` |
| Control.BlockHides | program/mjs/code/mjs.c:12554-12568 | a variable declared in a block hides one of that name outside, which stays as it was |
| Control.LoopMeans | program/mjs/code/mjs.c:13140-13204 | a loop opens one scope and takes turns: each begins with a condition that counts as true and ends normally or in `continue`, until a condition counts as false, the body ends in `break`, or either leaves for further out |
| Control.LoopFollows | program/mjs/code/mjs.c:13140-13204 | and conversely: turns of that kind make up the loop |
| ExprRuns.RunOne | program/mjs/code/mjs.c:9242-9258 | an instruction that lies where the machine is has its effect in one step |
| ExprRuns.RunExpr | program/mjs/code/mjs.c:12475-12897 | running compiled code, wherever it lies and on whatever stacks, pushes exactly the value of the tree and changes nothing else but the heap, or stops with the tree's first error |
| ExprRuns.RunLogical | program/mjs/code/mjs.c:12487-12507 | logical operators evaluate the right operand only when the left one does not decide |
| ExprRuns.RunCond | program/mjs/code/mjs.c:12857-12886 | exactly one branch of `?:` runs, and its value is the only one left |
| ExprRuns.RunFork | program/mjs/code/mjs.c:9300-9308 | when either branch of a fork starts, the stack is what it was before the condition |
| ExprRuns.RunBinary | program/mjs/code/mjs.c:8931-9009 | operands are evaluated left to right and combined in that order |
| ExprRuns.RunAssign | program/mjs/code/mjs.c:12514-12526 | the target is looked up first, then the value computed, then stored |
| ExprRuns.RunCrement | program/mjs/code/mjs.c:9043-9094 | increments and decrements store the new value and yield the old or the new one |
| ExprRuns.Join | program/mjs/code/mjs.c:9242-9652 | two runs in a row are one run |
| ExprRuns.SamePath | program/mjs/code/mjs.c:9242-9652 | runs are deterministic: the longer of two runs from one state passes through the end of the shorter one |
| StmtRuns.RunStmt | program/mjs/code/mjs.c:12895-13320 | running a compiled statement ends as its tree says: one value higher with scopes and loops as before, or early at the innermost loop or the caller, or stopped with the error, or still inside it after as many steps as fuel |
| StmtRuns.RunAll | program/mjs/code/mjs.c:12541-12552 | statements of a list run in order, and only the last one's value is left |
| StmtRuns.RunBlock | program/mjs/code/mjs.c:12554-12568 | a block runs in a scope of its own that is gone afterwards, however it ends |
| StmtRuns.RunIf | program/mjs/code/mjs.c:13206-13254 | without `else` a false condition leaves `undefined` |
| StmtRuns.RunIfElse | program/mjs/code/mjs.c:13206-13254 | exactly one branch runs, with the stack as before the condition |
| StmtRuns.RunTurns | program/mjs/code/mjs.c:13140-13204 | the turns of a loop follow the tree: a false condition or `break` leaves `undefined` behind the loop, `continue` starts the next turn |
| StmtRuns.RunLoop | program/mjs/code/mjs.c:13140-13204 | a loop opens one scope and one frame and closes both, however it ends |
| StmtRuns.RunReturnStmt | program/mjs/code/mjs.c:13256-13264 | `return` evaluates its expression and leaves for the caller |
| StmtRuns.RunDecls | program/mjs/code/mjs.c:12899-12929 | declared variables are created in the innermost scope in order; each keeps its value on the stack unless a comma follows |
| StmtRuns.LeavesOuter | program/mjs/code/mjs.c:9592-9622 | leaving a statement early undoes whatever scopes and loops were opened inside it |
| Programs.ParsedExpressionRuns | program/mjs/code/mjs.c:12475-12897 | whatever the parser accepts of literals, variables, unary, binary and logical operators and `?:` runs to the value of the recognised tree and changes nothing else, or stops with its first error |
| Programs.PureKeepsHeap | program/mjs/code/mjs.c:12475-12889 | without assignments, increments and decrements evaluation changes no variable |
| Programs.StackDiscipline | program/mjs/code/mjs.c:13140-13320 | any run that first reaches the end of a statement has the stack one value higher and scopes, loops and calls as at entry, with the value and the heap of the tree |
| Programs.StaysInside | program/mjs/code/mjs.c:13140-13204 | a statement whose tree needs more turns than `fuel` keeps the machine inside its code for that many steps |
| Programs.LetDiscipline | program/mjs/code/mjs.c:12899-12929 | a `let` leaves exactly as many values as it has variables without a comma behind them, so it has the stack effect of a statement if and only if there is one |
| Programs.EmptyBlock | program/mjs/code/mjs.c:12554-12568 | an empty block leaves no value at all |
| Programs.RunArgs | program/mjs/code/mjs.c:9528-9538 | every parameter receives its argument, or `undefined` when there is none |
| Programs.BodyNames | program/mjs/code/mjs.c:9528-9538 | a call's own scope holds the parameters and nothing else, each with the argument in its place or `undefined`; of two parameters of one name the last counts; all else on the heap stays |
| Programs.RunPrologue | program/mjs/code/mjs.c:9478-9505 | a call enters the body with the callee replaced by `undefined`, a frame for the caller and the parameters bound in a new scope |
| Programs.CallRestores | program/mjs/code/mjs.c:8743-8794 | whenever a call returns, from inside any nesting of loops and blocks, callee and arguments are replaced by one result and scopes, loops, calls and `this` are the caller's; when the body ends in a `break` or `continue` that has no loop in it, the machine stands at the caller's innermost loop with the call still open, or stops with an error when there is none; a body without such a statement never ends like that |
| Programs.ContainedCallCompletes | program/mjs/code/mjs.c:8743-8794 | a call of a body in which every `break` and `continue` has its loop gives way to one result with everything else as before, stops with an error, or is still inside the function after any number of steps one asks for |
| Programs.BreakEscapes | program/mjs/code/mjs.c:9607-9622 | a function whose body is `break`, called inside a loop: the machine goes on behind that loop, one call too deep, with callee and arguments still on the stack |
| Programs.BreakEscapesSomewhere | program/mjs/code/mjs.c:9607-9622 | code and a machine for which all these conditions hold exist; the machine is given by hand, not reached by a run |
| Programs.ProgramRuns | program/mjs/code/mjs.c:13323-13395 | an accepted program halts with the value of its last statement, or stops with the error of its tree, or is still running |
| Accepted.ProperIff | program/mjs/code/mjs.c:12679-12692 | a tree in its place between two tokens is proper, so that it runs to the one value of its meaning, if and only if only names are updated in it and it does not start with a name that is read directly behind an increment or a decrement; both sides are about the tree |
| Accepted.StmtsIff | program/mjs/code/mjs.c:12541-12552 | a recognised program is proper, so that its code runs as its tree says, if and only if, besides, its blocks are not empty and each `let` has one variable without a comma; both sides are about the tree |
| Accepted.AcceptedProgramRuns | program/mjs/code/mjs.c:13323-13395 | tokens that are a program within the limits of the parser and meet that condition: the code emitted for them halts with the value of the last statement, stops with the error of the tree, or is still running |
| Accepted.BehindIncrement | program/mjs/code/mjs.c:12679-12692 | `a++ b` is accepted and not proper |
| Accepted.RunIncrementThen | program/mjs/code/mjs.c:12679-12692 | running the code emitted for `a++ b`, on any machine: it stops with the first error, or ends with two values on the stack, the name `b` and the object that owns it |
| Accepted.TwoValuesLeft | program/mjs/code/mjs.c:12679-12692 | that is so wherever `a` is a number and `b` exists |
| Accepted.RunDecided | program/mjs/code/mjs.c:12487-12507 | when the left operand of a logical operator decides, its value is the only one left, whatever the right operand is, proper or not |
| Accepted.ImproperButNeverReached | program/mjs/code/mjs.c:12487-12507 | the disjunction of `true` and `(null = null)` is accepted and not proper, and yet every run of it leaves one value |
| Accepted.LetWithoutComma | program/mjs/code/mjs.c:12899-12929 | `let a b` and `let a,` are programs the parser accepts; they keep two values and none |
| Syntax.PureIsProper | program/mjs/code/mjs.c:12475-12897 | trees without assignments and increments never leave a variable reference where a value is needed |
| Grammar.ParsedBinary | program/mjs/code/mjs.c:12475-12512 | an operator between a tree of its own level and a tighter one is a tree of that level, in the order of the source and with left association |
| Grammar.ParsedLogical | program/mjs/code/mjs.c:12487-12507 | the patched jump of a logical operator skips exactly the drop and the right operand |
| Grammar.ParsedCond | program/mjs/code/mjs.c:12857-12886 | the two patched jumps of `?:` lead to the second branch and behind it, although the second patch moves the first target |
| Grammar.BranchBytes | program/mjs/code/mjs.c:12875-12885 | patching the later jump first and adding the shift to the earlier target gives the intended layout |
| Grammar.ParsedAtoms | program/mjs/code/mjs.c:12679-12692 | an identifier is a reference exactly when its neighbours say that it is being updated |
| StmtGrammar.ParsedIfElse | program/mjs/code/mjs.c:13206-13254 | an `if` with `else` is laid out with both jumps right |
| StmtGrammar.TurnBytes | program/mjs/code/mjs.c:13190-13195 | the condition of a loop leaves for the closing break |
| StmtGrammar.HeadBytes | program/mjs/code/mjs.c:13197-13203 | the loop header names the instruction behind the closing break, wherever the patches moved it |
| StmtGrammar.ParsedNext | program/mjs/code/mjs.c:12541-12552 | one more statement of a list, with the drop in front of it and the semicolons behind it |
| StmtGrammar.AddStmtBlocks | program/mjs/code/mjs.c:12554-12568 | the blocks of a list are counted one by one |
| Parser.Pstate.InsertOffset | program/mjs/code/mjs.c:7887-7913 | the reserved byte gives way to the encoding, what lies behind moves, and the cursor moves along |
| Parser.Pstate.ParseLevel | program/mjs/code/mjs.c:12475-12512 | one level of binary operators: the tokens consumed write a tree of the level that associates as the language demands, and the code emitted is that tree's code; it succeeds exactly when the reference reader finds a tree there that the depth leaves room for |
| Parser.Pstate.ParseTernary | program/mjs/code/mjs.c:12852-12889 | `?:` is recognised and its code laid out; it succeeds exactly when the reference reader finds a tree there that the depth leaves room for |
| Parser.Pstate.ParseUnary | program/mjs/code/mjs.c:12783-12802 | prefix operators are emitted after their operand, with their unary codes; it succeeds exactly when the reference reader finds a tree there that the depth leaves room for |
| Parser.Pstate.ParseLiteral | program/mjs/code/mjs.c:12661-12735 | literals, identifiers and parentheses are recognised and their code emitted; it succeeds exactly when the reference reader finds a tree there that the depth leaves room for |
| Parser.Pstate.ParseExpr | program/mjs/code/mjs.c:12891-12897 | assignment associates to the right; consumed tokens and emitted code are those of one tree of the grammar; it succeeds exactly when the reference reader finds a tree there that the depth leaves room for |
| Parser.Pstate.ParseStatementList | program/mjs/code/mjs.c:12541-12552 | the tokens up to the end write a list of statements whose code has been emitted, values of all but the last dropped; it succeeds exactly when the reference reader finds a tree there that the depth leaves room for |
| Parser.Pstate.ParseBlock | program/mjs/code/mjs.c:12554-12568 | a block takes one unit of depth for good; it succeeds exactly when the reference reader finds a tree there that the depth leaves room for |
| Parser.Pstate.ParseLet | program/mjs/code/mjs.c:12899-12929 | the variables up to the semicolon, in order, with the commas found; it succeeds exactly when the reference reader finds a tree there that the depth leaves room for |
| Parser.Pstate.ParseIf | program/mjs/code/mjs.c:13206-13254 | an `if`, with or without `else`, and its patched code; it succeeds exactly when the reference reader finds a tree there that the depth leaves room for |
| Parser.Pstate.ParseWhile | program/mjs/code/mjs.c:13140-13204 | a `while` and its patched code; it succeeds exactly when the reference reader finds a tree there that the depth leaves room for |
| Parser.Pstate.ParseReturn | program/mjs/code/mjs.c:13256-13264 | a `return` with its expression, or with `undefined`; it succeeds exactly when the reference reader finds a tree there that the depth leaves room for |
| Parser.Pstate.ParseStatement | program/mjs/code/mjs.c:13266-13320 | every statement of the fragment is recognised by its first token, and its code emitted; it succeeds exactly when the reference reader finds a tree there that the depth leaves room for |
| Parser.Pstate.MjsParse | program/mjs/code/mjs.c:13323-13395 | a token sequence is accepted if and only if it is a program of the fragment for which the depth suffices; the tree is the only one it writes, the code behind the cursor is that tree's code and the final exit, and there are at most 512 blocks |
| Reader.ReadIff | program/mjs/code/mjs.c:12475-12897 | the reference reader finds a tree at the front of some tokens if and only if they write a tree of that level with nothing behind it that goes on with it |
| Reader.OneTree | program/mjs/code/mjs.c:12475-12897 | a token sequence writes at most one tree: precedence and association leave no choice |
| Agreement.LevelOperand | program/mjs/code/mjs.c:12475-12512 | one more operand of a level: tree, place and depth of the parser stay those of the reader, each operator to the left costing one unit of depth while the level is open |
| Agreement.CondAgrees | program/mjs/code/mjs.c:12852-12889 | the same for `?:` |
| StmtAgreement.StmtsNext | program/mjs/code/mjs.c:12541-12552 | the same for one more statement of a list, with the depth that earlier blocks have taken for good |
| Canonical.ProgramIff | program/mjs/code/mjs.c:12541-12552 | a whole token sequence is read as a program if and only if it writes that program in the parser's grouping |
| Canonical.OneProgram | program/mjs/code/mjs.c:12541-12552 | no two programs are written alike: the dangling `else` and stray semicolons included |
| Precedence.LeftNested | program/mjs/code/mjs.c:12475-12512 | for any two operators of the ladder, row by row from the logical or to multiplication: `a p b q c` groups to the left when `p` stands in a tighter row, or both in one row of arithmetic |
| Precedence.RightNested | program/mjs/code/mjs.c:12475-12512 | it groups to the right when `q` stands in a tighter row, or both are one logical operator |
| Precedence.Parenthesized | program/mjs/code/mjs.c:12661-12735 | parentheses override both |
| Precedence.PrefixFirst | program/mjs/code/mjs.c:12783-12802 | a prefix operator takes the operand next to it and no more, and prefix operators nest |
| Precedence.CrementFirst | program/mjs/code/mjs.c:12769-12802 | increments and decrements update the name next to them, before any other operator |
| Precedence.CondLast | program/mjs/code/mjs.c:12852-12889 | `?:` is looser than every operator of the ladder and groups to the right |
| Precedence.AssignLast | program/mjs/code/mjs.c:12514-12526 | each of the twelve assignments takes all that is behind it, `?:` and further assignments included |
| Precedence.SingleToken | program/mjs/code/mjs.c:12661-12735 | what each literal token, and a name, stands for by itself |
| StatementForms.IfForms | program/mjs/code/mjs.c:13206-13254 | the branch in front of `else` is the first one of the tree, and an `else` belongs to the nearest `if` |
| StatementForms.LoopForms | program/mjs/code/mjs.c:13140-13204 | condition and body of a `while` with and without braces, and the order of statements in braces |
| StatementForms.LetForms | program/mjs/code/mjs.c:12899-12929 | an initialiser belongs to the name in front of it; `return` takes the expression behind it, or none |
| Splice.ArrayObj.Set | program/mjs/code/mjs.c:12221-12275 | one property changes or is added in front; all others keep their values |
| Splice.ArrayObj.Del | program/mjs/code/mjs.c:12284-12308 | one property goes; all others keep their values |
| Splice.ArrayObj.Length | program/mjs/code/mjs.c:7656-7676 | the length is one more than the greatest index, holes or not |
| Splice.MoveItem | program/mjs/code/mjs.c:7731-7736 | the item leaves its index and takes the other one; a hole arrives as `undefined` |
| Splice.CloseGap | program/mjs/code/mjs.c:7801-7808 | the elements behind the gap arrive in order at its place, holes filled with `undefined`, and nothing lies behind them |
| Splice.OpenGap | program/mjs/code/mjs.c:7809-7813 | moving the last element first keeps every element while making room; holes arrive as `undefined` |
| Splice.NormalizeIdx | program/mjs/code/mjs.c:14688-14699 | indices inside the array stay, negative ones count from the end, one behind the end is the end, and one in front of the start is the start |
| Splice.MjsArraySplice | program/mjs/code/mjs.c:7738-7823 | an array, with holes or without, becomes what was in front of `start`, the new items and what was behind the deleted ones, and the deleted ones are returned; holes that are moved or returned become `undefined`; wrong arguments change nothing; other properties stay |
| Splice.SplicedFull | program/mjs/code/mjs.c:7738-7823 | without holes that is the operation on sequences |
| Splice.SpliceCounts | program/mjs/code/mjs.c:7757-7785 | on whole sequences, without any clamping in the statement: a count that fits takes so many, one past the end or missing takes all there are, a negative one none |
| Splice.SpliceIndices | program/mjs/code/mjs.c:14688-14699 | the same for indices: from the end, in front of the start, and behind the end, where the new items are appended |
| Splice.SomeArray | program/mjs/code/mjs.c:7656-7676 | every property list is an array in that sense |
| Getopt.SwapBlocks | program/jpegoptim/code/getopt.c:252-257 | the loop swaps two blocks of equal length and nothing else |
| Getopt.RotateShortBottom | program/jpegoptim/code/getopt.c:245-260 | swapping the short bottom segment with the far end puts it in place and leaves a smaller rotation |
| Getopt.RotateShortTop | program/jpegoptim/code/getopt.c:261-276 | swapping the short top segment with the near end puts it in place and leaves a smaller rotation |
| Getopt.Rotate | program/jpegoptim/code/getopt.c:229-277 | the loop ends and has exchanged the two segments, each in its order, with everything outside untouched |
| Getopt.Scanner.Exchange | program/jpegoptim/code/getopt.c:229-283 | the non-options have changed places with the options behind them, and the boundaries say where they are |
| Getopt.Scanner.Initialize | program/jpegoptim/code/getopt.c:285-319 | a leading `-` or `+` chooses the ordering and is dropped; otherwise the environment decides |
| Getopt.FindLong | program/jpegoptim/code/getopt.c:492-513 | an exact name wins, else an abbreviation must be unique |
| Getopt.Scanner.DecodeElement | program/jpegoptim/code/getopt.c:462-672 | what a call reports, how far it moves and what it stores depend only on the elements not yet scanned, and are what the reference decoder says |
| Getopt.Scanner.ShortOption | program/jpegoptim/code/getopt.c:603-672 | a short option with its required or optional argument, or the error for it |
| Getopt.Scanner.TakeLong | program/jpegoptim/code/getopt.c:526-576 | a long option with its argument from the same or the next element, its flag or its value |
| OptionScan.Decode | program/jpegoptim/code/getopt.c:462-672 | every call either finishes elements or shortens what is left of the current one |
| OptionScan.LookupMeaning | program/jpegoptim/code/getopt.c:492-513 | an option of that very name is found, the first one; otherwise a unique abbreviation; none or several are told apart |
| OptionForms.LongAttached | program/jpegoptim/code/getopt.c:489-576 | two dashes, a name or its unique abbreviation, `=` and a text use one element and give that text as the argument, or `?` when the option takes none; the code is the option's value, or zero with the value stored through its flag; likewise one dash where the caller allows it |
| OptionForms.LongAlone | program/jpegoptim/code/getopt.c:489-576 | without `=`, a required argument is the next element, or reported missing when there is none; an optional one is not taken |
| OptionForms.LongUnknown | program/jpegoptim/code/getopt.c:494-600 | a name that stands for no option, or abbreviates several, gives `?`, whatever is attached |
| OptionForms.FirstLetter | program/jpegoptim/code/getopt.c:462-491 | an element of letters is decoded from the first of them on |
| OptionForms.LetterAlone | program/jpegoptim/code/getopt.c:603-672 | a letter without a colon is reported by itself, and the letters behind it come next |
| OptionForms.LetterRequired | program/jpegoptim/code/getopt.c:603-672 | a letter with one colon takes what is left of the element, or else the next element, or is reported with a missing argument |
| OptionForms.LetterOptional | program/jpegoptim/code/getopt.c:603-672 | a letter with two colons takes only what is left of the element |
| OptionForms.LetterUnknown | program/jpegoptim/code/getopt.c:603-672 | any other letter gives `?`, and the letters behind it come next |
| OptionForms.PassedOver | program/jpegoptim/code/getopt.c:395-412 | an element without a dash in front, or a dash alone, is passed over |
| OptionForms.EndOfOptions | program/jpegoptim/code/getopt.c:414-430 | `--` counts as an option, and nothing behind it does |
| OptionForms.WordsHandedOut | program/jpegoptim/code/getopt.c:432-459 | where non-options are handed out, each comes as the argument of code 1 |
| OptionForms.InOrderEnds | program/jpegoptim/code/getopt.c:414-459 | otherwise the first non-option ends the scan and stays; `--` ends it and goes |
| OptionString.DecodeSame | program/jpegoptim/code/getopt.c:285-319 | a call with the sign of the option string still in front decodes its option as the first call would if and only if the sign does not decide between long and short; the letter is not the sign, or the sign is listed behind the front with colons that come to the same; and no missing argument is to be reported by a colon behind it |
| OptionString.SignTakenForLetter | program/jpegoptim/code/getopt.c:285-319 | the options `+a` and the element `-+`: unknown to the first call, an option letter to later ones |
| OptionString.ColonOverlooked | program/jpegoptim/code/getopt.c:546-565 | the options `+:a:` and `-a` without its argument: `:` on the first call, `?` on later ones |
| OptionString.InOrderSame | program/jpegoptim/code/getopt.c:378-673 | when the elements or the options are such that the sign cannot matter, whole scans are the same |
| OptionString.AlwaysSameIff | program/jpegoptim/code/getopt.c:378-673 | with short options only, every command line is scanned the same if and only if the sign is listed behind the front with as many colons as lead, and no letter with a required argument is listed when a colon leads |
| OptionString.InOrderDiffers | program/jpegoptim/code/getopt.c:378-673 | of `-a -+` with the options `+a` the second report differs |
| OptionScan.ScanOption | program/jpegoptim/code/getopt.c:378-673 | one call of the reference scanner is one decoded option and the scan of what follows |
| OptionScan.ScanSkip | program/jpegoptim/code/getopt.c:405-411 | skipping non-options reports nothing |
| OptionScan.SelectPermutes | program/jpegoptim/code/getopt.c:145-149 | options in front of everything else are a rearrangement of the same elements |
| Getopt.SplitExchange | program/jpegoptim/code/getopt.c:229-283 | an exchange keeps the split of the scanned elements into options and others |
| Getopt.SplitDone | program/jpegoptim/code/getopt.c:432-442 | when everything is scanned, options come first and `optind` is the boundary |
| Getopt.Scanner.SkipNonOptions | program/jpegoptim/code/getopt.c:395-412 | options met since the last non-options move in front of them, and the next non-options join the others |
| Getopt.Scanner.DashDash | program/jpegoptim/code/getopt.c:414-430 | `--` is moved in front like an option, and all behind it counts as non-options |
| Getopt.Scanner.ResumeInOrder | program/jpegoptim/code/getopt.c:414-459 | without permuting, a non-option ends the scan or is handed out with code 1, and `argv` stays |
| Getopt.Scanner.ScanAllInOrder | program/jpegoptim/code/getopt.c:378-673 | calling until `EOF` in the orderings that do not permute comes to an end, reports what the scan in order reports, moves nothing, and leaves `optind` where that scan stops |
| Getopt.Scanner.ResumePermuting | program/jpegoptim/code/getopt.c:378-673 | a permuting call reports what the scan that never permutes reports next, and `1 <= first_nonopt <= last_nonopt <= optind <= argc` with the split of the elements holds again |
| Getopt.Scanner.GetoptInternal | program/jpegoptim/code/getopt.c:378-673 | from the first call on, in every ordering: permuting, a call reports what the scan that never permutes reports next and the split of the elements holds again; otherwise what the scan in order reports next, with the sign dropped on the first call only and `argv` as it was |
| Getopt.Scanner.ScanAll | program/jpegoptim/code/getopt.c:378-673 | calling until `EOF` comes to an end; codes and arguments are those of the reference scan, and in the end `argv` is a stable partition: options, their arguments and `--` first, all else behind, `optind` between them |
| Reduction.NextP2 | tool/tool/HTFuzz/afl-tmin.c:404-411 | the first power of two that is not less |
| Reduction.EqualBlocks | tool/tool/HTFuzz/afl-tmin.c:501-512 | deleting the second of two equal blocks in a row is deleting the first |
| Reduction.ZeroedCount | tool/tool/HTFuzz/afl-tmin.c:551-634 | zeroing bytes lowers the number of non-zero bytes unless nothing changed |
| Reduction.ComesFromWithout | tool/tool/HTFuzz/afl-tmin.c:514-530 | deleting a block keeps an increasing map into the original |
| Minimizer.Tmin.NormalizeBlocks | tool/tool/HTFuzz/afl-tmin.c:426-465 | blocks are only zeroed, and only where the oracle agrees |
| Minimizer.Tmin.DeleteBlocks | tool/tool/HTFuzz/afl-tmin.c:485-537 | one sweep: without a deletion, no block of that length can go, counted from the front, skipped ones included |
| Minimizer.Tmin.DeletionStage | tool/tool/HTFuzz/afl-tmin.c:471-547 | if nothing was deleted, no block can go whose length is a power of two, from the first that reaches a sixteenth of the input down to single bytes; otherwise the input is shorter |
| Minimizer.Tmin.SymbolStage | tool/tool/HTFuzz/afl-tmin.c:551-598 | if nothing changed, no symbol can be zeroed throughout; otherwise fewer bytes are non-zero |
| Minimizer.Tmin.CharStage | tool/tool/HTFuzz/afl-tmin.c:600-632 | if nothing changed, no byte can be zeroed; otherwise fewer bytes are non-zero |
| Minimizer.Tmin.Minimize | tool/tool/HTFuzz/afl-tmin.c:415-634 | it ends for every oracle; on every exit no single byte and no block of those lengths can be deleted; the result is accepted if the original was and is what remains of it after deletions and zeroing; when one pass sufficed, nothing can be zeroed either |
| RunLength.RowCodeExpands | program/GraphicsMagick/code/coders/bmp.c:384-398 | a row is written as runs of 1 to 255 bytes whose expansion is exactly the row |
| RunLength.RunLen | program/GraphicsMagick/code/coders/bmp.c:391-393 | a run is as long as possible up to 255 |
| RunLength.EncodedLength | program/GraphicsMagick/code/coders/bmp.c:384-414 | the stream has at most two bytes for each pixel, two for each row and two at the end |
| RunLength.BufferFits | program/GraphicsMagick/code/coders/bmp.c:1849-1859 | the buffer the writer allocates is large enough |
| BmpCodec.EncodeRow | program/GraphicsMagick/code/coders/bmp.c:386-398 | the loops write the runs of one row |
| BmpCodec.EncodeImage | program/GraphicsMagick/code/coders/bmp.c:359-414 | the buffer holds the stream of the image, within the size the writer allocates |
| BmpCodec.Blob.ReadBlobByte | program/GraphicsMagick/code/coders/bmp.c:203-205 | the next byte, or a negative number at the end |
| BmpCodec.WriteRun | program/GraphicsMagick/code/coders/bmp.c:206-231 | a run is written at the cursor and nowhere else |
| BmpCodec.WriteLiteral | program/GraphicsMagick/code/coders/bmp.c:270-309 | literal pixels are copied as far as the stream reaches |
| BmpCodec.Command | program/GraphicsMagick/code/coders/bmp.c:199-311 | one command of any kind draws what the stream stands for and consumes input |
| BmpCodec.DecodeImage | program/GraphicsMagick/code/coders/bmp.c:173-320 | for RLE8 and RLE4 every finite stream is decoded to an end, all writes fall into the image, and the pixels are what the commands draw |
| RunLengthForms.RunDraws | program/GraphicsMagick/code/coders/bmp.c:206-231 | a run draws its count of pixels: of eight bits all alike, of four bits two in turn, the one in the high half first |
| RunLengthForms.LiteralDraws | program/GraphicsMagick/code/coders/bmp.c:270-309 | literal pixels packed one or two to a byte are drawn as they are, and the stream goes on behind their pad byte |
| RunLengthForms.DeltaDraws | program/GraphicsMagick/code/coders/bmp.c:254-269 | from any pixel, a delta and a run of one pixel draw exactly the pixel that lies so many to the right and so many rows on |
| RunLengthForms.PictureComesBack | program/GraphicsMagick/code/coders/bmp.c:199-311 | every picture, with pixels of eight bits or of four, is drawn again from its literal form and from its form in runs |
| RunLengthRoundTrip.DrawRow | program/GraphicsMagick/code/coders/bmp.c:203-221 | the runs of a row draw the row when more room follows |
| RunLengthRoundTrip.DrawCut | program/GraphicsMagick/code/coders/bmp.c:201-221 | a row that reaches the end of the image is cut off there, and decoding is over |
| RunLengthRoundTrip.NextRow | program/GraphicsMagick/code/coders/bmp.c:244-253 | the padding of a row spills over, and the next row still starts at its own place |
| RunLengthRoundTrip.RoundTrip | program/GraphicsMagick/code/coders/bmp.c:173-414 | decoding an encoded image gives back the first `columns` bytes of every row when `columns <= bytes_per_line < 2 * columns`, or when there is at most one row |
| RunLengthRoundTrip.RoundTripIff | program/GraphicsMagick/code/coders/bmp.c:173-414 | every image of a size comes back if and only if there is at most one row or the padded row is shorter than two rows of pixels |
| RunLengthRoundTrip.DarkIsLost | program/GraphicsMagick/code/coders/bmp.c:201-202 | with wider padding the image whose last row starts with a lone bright pixel is lost: decoding stops before the last row |
| RunLengthRoundTrip.WriterRows | program/GraphicsMagick/code/coders/bmp.c:1639 | with the writer's padding to four bytes, exactly images of one or two columns have padding that does not fit |

## Left out

- FFI calls, `dlsym`, callbacks, foreign pointers and raw memory access of mJS: foreign code.
- Floating-point arithmetic and number printing: `Machine.Arith` leaves the operations on doubles open, so the theorems hold for any.
- The tokenizer, the line-number map, the bytecode header and several bytecode parts: the parser starts from tokens, and code positions are offsets in one part.
- Member access and calls: the parser answers `Outside` for them. The body of a function and the call of it are covered on the machine's side only.
- Parser.Pstate.ParseLiteral: array, object and function literals answer `Outside`.
- Parser.Pstate.ParseStatement: `for` and `for in` answer `Outside`.
- Parser.Pstate.ParseIf: a brace behind the first token of a branch without braces, which `parse_block_or_stmt` looks at, answers `Outside`.
- Parser.Pstate.ParseWhile: the same, and a body in braces that the end of the input closes.
- Parser.Pstate.ParseReturn: an expression that fails to parse behind `return` is accepted by the code as `undefined`; the model says so only when nothing of it was consumed, and answers `Outside` otherwise.
- Machine.Step: stack underflow other than by a drop, properties of arrays, strings and foreign objects, prototypes and `this` for method calls end in the status `Beyond`, about which nothing is said.
- Interpreter.Interp.ExecExpr: operators on foreign pointers, and stores into what is no object, end in `Beyond`.
- Interpreter.Interp.ExecCall: calls of foreign and C functions end in `Beyond`.
- Interpreter.Interp.MjsExecute: `mjs_execute` may run forever, so the loop takes fuel; on an error the source sets every stack to its old length even where it had shrunk below it, the model only cuts.
- StmtRuns.RunStmt: positions in the code have to fit a C `int`, as the source's own cursor does.
- The first parameter of `gc_sweep` after the arena, which is zero in every call; destructors of signatures, statistics, the trimming of buffers by a full collection, and running out of memory.
- Collector.Mjs: blocks are sequences of cell addresses, so pointer arithmetic inside a block is membership; mbufs are sequences, so their capacity and reallocation are not modelled.
- Collector.Mjs.GcAllocCell: the addresses of a new block are a parameter, since `calloc` chooses them; `Mutator` asks that they lie away from all other memory of the heap.
- Roots.Create: the builtin object, and the sizes of the arenas, which are parameters.
- Pushing and popping of scopes, call frames and callback arguments, which are like those of the data stack.
- Deleting a property of an object, and storing under the name of an existing property, beyond the store itself.
- Splice.MjsArraySplice: index names are numbers rather than their decimal digits, and the array and its arguments together have at most as many items as a C `int` counts.
- getopt's error messages, the lookup of `POSIXLY_CORRECT` (a parameter), and calls after the first end of options.
- Getopt.Scanner.ScanAll: a long option whose own value is the end-of-options code would stop a caller that only looks at the code; the model returns the end as a value of its own.
- Running the target, timeouts and hashing in afl-tmin: `run_target` is a predicate on inputs that answers the same for the same input.
- Minimizer.Tmin.Minimize: after more than one pass the code does not retry zeroing once no deletion succeeds, so nothing about zeroing is stated for that exit.
- BMP headers, colour maps, pixel import and export, and the monitor that may cancel a row.
- BmpCodec.DecodeImage: the array is the `columns * rows` bytes the decoder may write; what the reader allocates behind them is not modelled.
