# The Lua core of the server, verified

The server embeds Lua 5.1.4, lightly modified (`ServerSystem/Lua`). This project models the parts of it that carry
state, arithmetic and branching, and proves what they promise. Each part has its own modules.

- **Garbage collector** (`Gc*`, `Collector`). The heap is an object graph; the collector is the five-state machine of
  `singlestep` with two whites, `gray` and `grayagain`, the sweep cursors and both barriers; the program is a set of
  events (allocations, barriered stores, captures, closes, coroutine switches) that interleave with collector steps.
  An invariant over all of it gives safety of every run, also when a store finds a key whose entry is empty
  (`GcKeys`); a second one gives exactness of `luaC_fullgc`.
- **Code generator and machine** (`LuaCode`, `Code*`). Expressions of `and`, `or`, `not`, comparisons and arithmetic
  over locals and constants; jump lists threaded through the jumps' operands; a machine for the opcodes they use. Partly
  generated code is run with its pending jumps as exits, and each generator function is shown to do its step of an
  evaluator that says what the code delivers (`CodeMeaning`). `CodeExact` says when that is the expression's value, and
  `CodeLimits` when there is an error instead.
- **Tables** (`Table*`). Array part, chained scatter hash part with Brent's variation, `lastfree`, rehashing and
  resizing, against a map; traversal; borders.
- **Bytecode checker** (`Prototypes`, `Checker`, `CheckerExact`): exactly what it accepts, and what that means for the
  paths of the machine.
- **Pattern matcher** (`Patterns`, `PatternSearch`, `PatternMeaning`, `Matcher`). A pattern is a row of items; a choice
  says how often each repetition is taken; the matcher finds the most preferred choice that works.
- **Precompiled chunks** (`ChunkFormat`, `ChunkBytes`, `ChunkTrip`, `Zio`, `Undump`, `Dumper`): writing, buffered
  reading, loading.
- **Operator precedence** (`Precedence`, `PrecedenceRows`), **open upvalues** (`Upvalues`), **sorting** (`Sort`),
  **quoting** (`Quote`, `QuoteEscapes`).

What works in place in the source is a class or an array here, with methods that keep its loops; each method is proved
to compute a function on values, and the theorems are about those functions. Addresses, instructions and characters are
numbers; Lua numbers are kept abstract.

Three results say where the code does not do what one would expect, and exactly when it does: literal operands of
`and` and `or`, whose jumps take over the jumps that were to come to them (`CodeRun.FaultyWrong`;
`CodeExact.GeneratedExact` for each state of the registers, `CodeExact.LogicalExact` for all of them at once), `LOADBOOL`
with C above 1 (`Checker.SkipperAccepted`, `Checker.PathsExact`), and quoted strings with as many newlines as lines can
be counted (`Quote.QuoteRoundTrip`). A dumped chunk is read back as it was when every function names its source
(`ChunkTrip.SameExact`); the parser (`lparser.c:348`) and the loader (`lundump.c:167`) see to that.

`dafny verify dfyconfig.toml` checks the project.

## Model

| member | source | states |
|---|---|---|
| GcHeap.EdgesExact | ServerSystem/Lua/lgc.c:158-271 | what the traversals mark of an object is exactly what its fields hold: metatable and environment, the array slots, key and value of every node whose value is not nil, upvalues, stack, and each field of a prototype |
| GcHeap.RootsExact | ServerSystem/Lua/lgc.c:493-512 | the roots are the main thread, the running thread, the registry and the metatable of each type, and nothing else |
| GcHeap.ReachableInside | ServerSystem/Lua/lgc.c:501-512 | reachability, defined by the fields that hold an object, is inside every set that holds the roots and follows the references that marking follows |
| GcHeap.ReachableClosed | ServerSystem/Lua/lgc.c:501-512 | and is such a set itself |
| GcMark.MarkAllMarks | ServerSystem/Lua/lgc.c:69-112 | marking any list of references only turns white objects; each newly marked object has all its references marked or waits exactly once on the gray list; nothing given stays white |
| GcMark.MarkAllInside | ServerSystem/Lua/lgc.c:69-112 | marking reaches only what the given references reach |
| GcInvariant.ReachableLive | ServerSystem/Lua/lgc.c:407-428 | under the collector invariant, everything the program can reach is in the heap and will not be freed by the sweep |
| GcInvariant.MarkRootKeeps | ServerSystem/Lua/lgc.c:501-512 | starting a mark phase establishes the tri-colour invariant |
| GcInvariant.PropagateMarkKeeps | ServerSystem/Lua/lgc.c:277-320 | propagatemark keeps: no black object refers to a white one, every gray object that must be traversed is on gray or grayagain |
| GcInvariant.PropagateAllKeeps | ServerSystem/Lua/lgc.c:323-330 | propagateall keeps the tri-colour invariant, and marked open upvalues keep their values marked |
| GcInvariant.AtomicAllSettled | ServerSystem/Lua/lgc.c:525-553 | at the end of the atomic marking no marked object, thread or open upvalue included, refers to a white one |
| GcInvariant.AtomicKeeps | ServerSystem/Lua/lgc.c:525-553 | the atomic step, with its two rounds of remarking and the flip of the white, leads from the mark-phase invariant to the sweep-phase invariant |
| GcClose.CloseOneKeeps | ServerSystem/Lua/lfunc.c:96-112 | closing the topmost open upvalue of a thread, in any phase of the collector, keeps the invariant; a dead upvalue is freed, a live one takes over its slot's value |
| GcSweepKeeps.CloseKeeps | ServerSystem/Lua/lfunc.c:96-112 | luaF_close keeps the invariant and everything live, changes no other field of the thread, and leaves no open upvalue at or above the level |
| GcSweepKeeps.SweepStringKeeps | ServerSystem/Lua/lgc.c:572-580 | one step of the string sweep keeps the invariant, and everything live stays and looks the same |
| GcSweepKeeps.SweepRootOneKeeps | ServerSystem/Lua/lgc.c:407-428 | one turn of sweeplist on rootgc, freeing a thread with its open upvalues included, keeps the invariant and everything live |
| GcSweepKeeps.SweepRootKeeps | ServerSystem/Lua/lgc.c:407-428 | the same for sweeplist with any count |
| GcMutatorKeeps.PushKeeps | ServerSystem/Lua/lgc.c:256-271 | a write to a thread's stack needs no barrier: the invariant is kept in every phase |
| GcMutatorKeeps.NewKeeps | ServerSystem/Lua/lgc.c:686-692 | luaC_link: allocating an object in any phase keeps the invariant, and the new object is live |
| GcMutatorKeeps.LinkStringKeeps | ServerSystem/Lua/lstring.c:50-72 | a new string chained into the string table keeps the invariant and is live, also while the table is being swept |
| GcMutatorKeeps.LinkAfterMainKeeps | ServerSystem/Lua/lstring.c:96-110 | userdata chained after the main thread, even when the sweep cursor stands there, keeps the invariant and is live |
| GcMutatorKeeps.ResurrectKeeps | ServerSystem/Lua/lstring.c:75-93 | finding a dead string before the sweep gets to it and turning it white again keeps the invariant |
| GcMutatorKeeps.StoreKeeps | ServerSystem/Lua/lgc.h:86-97 | a store whose barrier test fails keeps the invariant, also if it makes references again of objects that are live and, under a black table, not white |
| GcMutatorKeeps.ForwardKeeps | ServerSystem/Lua/lgc.c:662-672 | a store of a white object into a black one followed by luaC_barrierf keeps the invariant, in the mark phase and in the sweep phases |
| GcMutatorKeeps.BackKeeps | ServerSystem/Lua/lgc.c:675-683 | a store into a black table followed by luaC_barrierback keeps the invariant |
| GcMutatorKeeps.FindUpvalKeeps | ServerSystem/Lua/lfunc.c:53-79 | luaF_findupval keeps the invariant and returns a live upvalue that shares the slot, found, resurrected or new |
| GcRuns.StepKeeps | ServerSystem/Lua/lgc.c:556-607 | singlestep keeps the collector invariant in all five states |
| GcRuns.StepSafe | ServerSystem/Lua/lgc.c:556-607 | whatever the program can reach and whatever is fixed survives a collector step and looks the same, and nothing else becomes reachable or fixed |
| GcRuns.SetOpenUpvalKeeps | ServerSystem/Lua/lvm.c:447-452 | a store through an open upvalue keeps the invariant: the upvalue is never black |
| GcRuns.ApplyKeeps | ServerSystem/Lua/lgc.c:556-692 | every event (allocation, barriered store of a value, capture, close, resume, collector step) keeps the collector invariant; stores that find the key of an empty entry are in GcKeys |
| GcRuns.NewStateInv | ServerSystem/Lua/lstate.c:145-191 | a new state satisfies the invariant |
| GcFull.MarkRootExact | ServerSystem/Lua/lgc.c:501-512 | a new mark phase marks reachable objects only |
| GcFull.PropagateMarkExact | ServerSystem/Lua/lgc.c:277-320 | propagatemark marks reachable objects only |
| GcFull.AtomicExact | ServerSystem/Lua/lgc.c:525-553 | after the atomic step only reachable and fixed objects are live |
| GcFull.StepExact | ServerSystem/Lua/lgc.c:556-607 | no step of a collection spoils exactness |
| GcFull.StepProgress | ServerSystem/Lua/lgc.c:556-607 | every step of a collection decreases: phase, then white objects, then the gray list, then the unswept lists |
| GcFull.ExactEnd | ServerSystem/Lua/lgc.c:636-659 | at the end the heap is exactly the reachable and the fixed objects |
| GcKeys.AllClears | ServerSystem/Lua/lgc.c:158-202 | in propagateall the tables whose keys of empty entries become dead are exactly those that turn black |
| GcKeys.AtomicClears | ServerSystem/Lua/lgc.c:525-553 | the same over the whole atomic step, its remarking rounds included |
| GcKeys.StepClears | ServerSystem/Lua/lgc.c:556-607 | so in a step of the mark phase, a key of an empty entry stays undead only if its table was black before or is not black after |
| GcKeys.AtomicStepKeeps | ServerSystem/Lua/lgc.c:525-553 | after the flip no live table has an undead key of an empty entry that is dead |
| GcKeys.KeyStepKeeps | ServerSystem/Lua/lgc.c:556-607 | singlestep keeps the invariant: undead keys of empty entries in live tables are live, and while marking those in black tables are not white |
| GcKeys.SlotStores | ServerSystem/Lua/lvm.c:134-150 | a program may store any value it holds into any array slot of any table it can reach: the event is legal |
| GcKeys.NodeStores | ServerSystem/Lua/lvm.c:134-150 | so is a store into any node, whose key may be that of an empty entry as long as it is not dead |
| GcKeys.KeyStores | ServerSystem/Lua/ltable.c:424-427 | so is newkey, which enters a key into an empty node with a barrier on the key |
| GcKeys.MetatableStores | ServerSystem/Lua/lapi.c:697-716 | and lua_setmetatable on a table |
| GcKeys.AssignKeeps | ServerSystem/Lua/lvm.c:134-150 | a store into a table keeps it with the barrier on the value alone, also when it finds the node of an empty entry and makes its key a reference again |
| GcKeys.KeyApplyKeeps | ServerSystem/Lua/lgc.c:62-66 | every legal event keeps the collector invariant and that of the keys |
| GcKeys.RunSafe | ServerSystem/Lua/lgc.c:407-607 | for any interleaving of events, stores that find keys of empty entries and the steps of full collections included, everything reachable afterwards is in the heap and not about to be freed: the roots, what any field of a reachable object holds, and every undead key of a reachable table |
| GcKeys.SafeFromStart | ServerSystem/Lua/lgc.c:407-607 | safety of every run from a new state |
| GcBits.ColourTests | ServerSystem/Lua/lgc.h:54-67 | on the mark byte, iswhite, isblack and isgray are the three colours, whatever the other bits |
| GcBits.DeadTest | ServerSystem/Lua/lgc.h:69-70 | isdead tests for the other white |
| GcBits.SweepTest | ServerSystem/Lua/lgc.c:407-428 | the test of sweeplist frees exactly the objects of the other white that are not fixed, because the current white carries the fixed bit |
| GcBits.Recolour | ServerSystem/Lua/lgc.h:72-77 | makewhite, white2gray, gray2black, black2gray and changewhite change the colour and nothing else |
| GcBits.FlipByte | ServerSystem/Lua/lgc.c:525-553 | the flip at the end of atomic exchanges the whites and keeps the fixed bit |
| Collector.Global.ReallyMarkObject | ServerSystem/Lua/lgc.c:69-112 | the method in place ends in the state the specification function gives, over the whole collector state |
| Collector.Global.PropagateMark | ServerSystem/Lua/lgc.c:277-320 | the method in place ends in the state the specification function gives, over the whole collector state, and kills the keys of empty entries that the traversals meet |
| Collector.Global.PropagateAll | ServerSystem/Lua/lgc.c:323-330 | the method in place ends in the state the specification function gives, over the whole collector state, and kills the keys of empty entries that the traversals meet |
| Collector.Global.MarkRoot | ServerSystem/Lua/lgc.c:501-512 | the method in place ends in the state the specification function gives, over the whole collector state |
| Collector.Global.RemarkUpvals | ServerSystem/Lua/lgc.c:515-522 | the method in place ends in the state the specification function gives, over the whole collector state |
| Collector.Global.Atomic | ServerSystem/Lua/lgc.c:525-553 | the method in place ends in the state the specification function gives, over the whole collector state, and kills the keys of empty entries that the traversals meet |
| Collector.Global.BarrierForward | ServerSystem/Lua/lgc.c:662-672 | the method in place ends in the state the specification function gives, over the whole collector state |
| Collector.Global.BarrierTable | ServerSystem/Lua/lgc.c:675-683 | the method in place ends in the state the specification function gives, over the whole collector state |
| Collector.Global.LinkObject | ServerSystem/Lua/lgc.c:686-692 | the method in place ends in the state the specification function gives, over the whole collector state |
| Collector.Global.LinkUpvalue | ServerSystem/Lua/lgc.c:695-710 | the method in place ends in the state the specification function gives, over the whole collector state |
| Collector.Global.CloseUpvals | ServerSystem/Lua/lfunc.c:96-112 | the method in place ends in the state the specification function gives, over the whole collector state |
| Collector.Global.SweepRootgc | ServerSystem/Lua/lgc.c:407-428 | the method in place ends in the state the specification function gives, over the whole collector state |
| Collector.Global.SingleStep | ServerSystem/Lua/lgc.c:556-607 | the method in place ends in the state the specification function gives, over the whole collector state, and kills the keys of empty entries that the traversals meet |
| Collector.Global.SweepChain | ServerSystem/Lua/lgc.c:407-428 | the loop of sweeplist on a list: which objects go, which stay and turn white, and what stays on the list |
| Collector.Global.Advance | ServerSystem/Lua/lgc.c:636-659 | one step of a collection keeps the invariant, makes progress, and is invisible to the program, fixed objects included |
| Collector.Global.FullGc | ServerSystem/Lua/lgc.c:636-659 | luaC_fullgc, from any collector state, an abandoned mark phase included, terminates with exactly the reachable objects and those that were fixed before, all looking the same to the program; whatever a field of a reachable object holds is in the heap |
| CodeExec.Resume | ServerSystem/Lua/lvm.c:373-581 | a run of code with pending jumps, continued after some of them have been patched and more code has been added, is the run of the new code |
| CodeLists.PatchListAt | ServerSystem/Lua/lcode.c:150-160 | after patchlistaux each jump of the list lands on vtarget if its test carries a value and on dtarget otherwise, its TESTSET stores into the register or becomes a TEST, and no other jump moves |
| CodeLists.RemoveValuesAt | ServerSystem/Lua/lcode.c:144-147 | removevalues turns exactly the list's TESTSETs into TESTs |
| CodeLinks.ConcatThreads | ServerSystem/Lua/lcode.c:185-196 | luaK_concat appends exactly the second list, changing only the last jump of the first |
| CodeLinks.PatchKeeps | ServerSystem/Lua/lcode.c:150-160 | patching a list leaves every other jump as it was |
| CodeLinks.JumpLinks | ServerSystem/Lua/lcode.c:59-66 | luaK_jump makes the new jump the head of the list of jumps to here, and the other lists stay threaded |
| CodeLinked.CompileLinked | ServerSystem/Lua/lcode.c:697-789 | for every expression, the lists threaded through the jumps are finite, acyclic and pairwise disjoint at the end, and jumps of earlier code change only if they were to come here |
| CodeExp2.Exp2RegCorrect | ServerSystem/Lua/lcode.c:390-411 | exp2reg: on every path the register holds the value, or what the exit taken brings along, or the literal its list stands for, and nothing is pending but jumps to here; a value that is in the register already needs no instruction, and the jumps to it stay pending |
| CodeOperand.OperandCorrect | ServerSystem/Lua/lcode.c:444-469 | luaK_exp2RK: a constant that fits or a register that holds what the operand delivers as coded; exactly when the operand needs no code the jumps to here stay pending with what they bring along |
| CodeGoIf.GoIfCorrect | ServerSystem/Lua/lcode.c:539-591 | after luaK_goiftrue or luaK_goiffalse control goes on exactly when the value has that truth, and otherwise leaves through an exit; what each way brings along is said, for a literal operand what the jumps to it bring |
| CodeNegate.CodeNotCorrect | ServerSystem/Lua/lcode.c:594-626 | codenot: the code computes the negation, also through the exchanged exits, which bring nothing along any more |
| CodeTheorem.CompileCorrect | ServerSystem/Lua/lcode.c:697-789 | for every nesting of and, or, not, comparisons and arithmetic over locals and constants, and with no condition but the limits, the code generated takes on every path the way an evaluator by recursion on the expression gives (CodeMeaning.Coded) |
| CodeRun.GeneratedRuns | ServerSystem/Lua/lcode.c:390-411 | whatever the registers hold, the machine run of the generated code ends after it with what that evaluator delivers in the first free register and the registers in use unchanged |
| CodeRun.GeneratedRunsFromJump | ServerSystem/Lua/lcode.c:163-182 | the same when control comes by a jump that was pending to the expression's start, with the value its TESTSET would bring along |
| CodeRun.FaultyWrong | ServerSystem/Lua/lcode.c:59-66 | where the generator is wrong: `((a and b) or false) and y` with a nil is false, but its code delivers nil |
| CodeMeaning.FormWay | ServerSystem/Lua/lcode.c:390-411 | a value that is computed or compared is not come to by a jump that brings something along, and a literal has its value |
| CodeExact.CodedAgrees | ServerSystem/Lua/lcode.c:539-591 | as long as operands are right, falling through gives the expression's value, exits have its truth, and only the jump of a literal may bring another value along |
| CodeExact.OperandsExact | ServerSystem/Lua/lcode.c:661-694 | every operand of arithmetic and comparisons that is reached gets its value if and only if none is left by a literal's jump that brings another value along |
| CodeExact.GeneratedExact | ServerSystem/Lua/lcode.c:697-789 | for every expression and every state of the registers: the run delivers the value, and every operand its own, if and only if neither is left by the jump of a literal that brings another value along |
| CodeExact.LogicalExact | ServerSystem/Lua/lcode.c:539-591 | for locals and constants joined by and, or, not: the code is right for all states of the registers if and only if no choice of the true locals leads control out by a literal's jump that a value-keeping test has come to |
| CodeExact.FaultyCourses | ServerSystem/Lua/lcode.c:59-66 | the faulty expression fails exactly when its first local is false; its negation, and the expression behind a test of that local, never fail |
| CodeExact.NoLiteralExits | ServerSystem/Lua/lcode.c:539-591 | no literal's jump is left by when no `and` has a first operand that folds to false and no `or` one that folds to true |
| CodeExact.NoLiteralRuns | ServerSystem/Lua/lcode.c:697-789 | all such expressions, arithmetic and comparisons included, are compiled right for all states of the registers |
| CodeLimits.CompileLimit | ServerSystem/Lua/lcode.c:199-212 | for every expression whose code cannot reach the length of a jump, generating it raises an error if and only if the registers in use and those it needs, given by recursion on the expression, are 250 or more |
| CodeLimits.GenerateLimit | ServerSystem/Lua/lcode.c:199-212 | the same with the register its value goes to |
| CodeLimits.FittingRuns | ServerSystem/Lua/lcode.c:390-411 | so whatever fits is compiled, and its code runs and delivers what the evaluator gives |
| CodeLimits.ConstsDistinct | ServerSystem/Lua/lcode.c:229-247 | no constant is entered twice |
| CodeRange.GenerateFit | ServerSystem/Lua/lcode.c:80-88 | without an error every jump of the generated code is at most 131071 instructions long, both ways |
| CodeGen.FuncState.GetJump | ServerSystem/Lua/lcode.c:100-106 | the method on the instructions and list heads in place does what the function about which the theorems speak does |
| CodeGen.FuncState.FixJump | ServerSystem/Lua/lcode.c:80-88 | the method on the instructions and list heads in place does what the function about which the theorems speak does |
| CodeGen.FuncState.GetJumpControl | ServerSystem/Lua/lcode.c:109-115 | the method on the instructions and list heads in place does what the function about which the theorems speak does |
| CodeGen.FuncState.PatchTestReg | ServerSystem/Lua/lcode.c:131-141 | the method on the instructions and list heads in place does what the function about which the theorems speak does |
| CodeGen.FuncState.RemoveValues | ServerSystem/Lua/lcode.c:144-147 | the method on the instructions and list heads in place does what the function about which the theorems speak does |
| CodeGen.FuncState.PatchListAux | ServerSystem/Lua/lcode.c:150-160 | the method on the instructions and list heads in place does what the function about which the theorems speak does |
| CodeGen.FuncState.Concat | ServerSystem/Lua/lcode.c:185-196 | the method on the instructions and list heads in place does what the function about which the theorems speak does |
| CodeGen.FuncState.Emit | ServerSystem/Lua/lcode.c:797-809 | the method on the instructions and list heads in place does what the function about which the theorems speak does |
| CodeGen.FuncState.NewJump | ServerSystem/Lua/lcode.c:59-66 | the method on the instructions and list heads in place does what the function about which the theorems speak does |
| CodeGen.FuncState.PatchToHere | ServerSystem/Lua/lcode.c:179-182 | the method on the instructions and list heads in place does what the function about which the theorems speak does |
| CodeGen.FuncState.CondJump | ServerSystem/Lua/lcode.c:74-77 | the method on the instructions and list heads in place does what the function about which the theorems speak does |
| CodeGen.FuncState.ReserveRegs | ServerSystem/Lua/lcode.c:199-212 | the method on the instructions and list heads in place does what the function about which the theorems speak does |
| CodeGen.FuncState.FreeExp | ServerSystem/Lua/lcode.c:215-226 | the method on the instructions and list heads in place does what the function about which the theorems speak does |
| CodeGen.FuncState.AddK | ServerSystem/Lua/lcode.c:229-247 | the method on the instructions and list heads in place does what the function about which the theorems speak does |
| CodeGen.FuncState.Discharge2Reg | ServerSystem/Lua/lcode.c:343-379 | the method on the instructions and list heads in place does what the function about which the theorems speak does |
| CodeGen.FuncState.Discharge2AnyReg | ServerSystem/Lua/lcode.c:382-387 | the method on the instructions and list heads in place does what the function about which the theorems speak does |
| CodeGen.FuncState.CodeLabel | ServerSystem/Lua/lcode.c:337-340 | the method on the instructions and list heads in place does what the function about which the theorems speak does |
| CodeGen.FuncState.Exp2Reg | ServerSystem/Lua/lcode.c:390-411 | the method on the instructions and list heads in place does what the function about which the theorems speak does |
| CodeGen.FuncState.Exp2NextReg | ServerSystem/Lua/lcode.c:414-419 | the method on the instructions and list heads in place does what the function about which the theorems speak does |
| CodeGen.FuncState.Exp2AnyReg | ServerSystem/Lua/lcode.c:422-433 | the method on the instructions and list heads in place does what the function about which the theorems speak does |
| CodeGen.FuncState.Exp2Val | ServerSystem/Lua/lcode.c:436-441 | the method on the instructions and list heads in place does what the function about which the theorems speak does |
| CodeGen.FuncState.Exp2RK | ServerSystem/Lua/lcode.c:444-469 | the method on the instructions and list heads in place does what the function about which the theorems speak does |
| CodeGen.FuncState.InvertJump | ServerSystem/Lua/lcode.c:516-521 | the method on the instructions and list heads in place does what the function about which the theorems speak does |
| CodeGen.FuncState.JumpOnCond | ServerSystem/Lua/lcode.c:524-536 | the method on the instructions and list heads in place does what the function about which the theorems speak does |
| CodeGen.FuncState.GoIfTrue | ServerSystem/Lua/lcode.c:539-564 | the method on the instructions and list heads in place does what the function about which the theorems speak does |
| CodeGen.FuncState.GoIfFalse | ServerSystem/Lua/lcode.c:567-591 | the method on the instructions and list heads in place does what the function about which the theorems speak does |
| CodeGen.FuncState.CodeNot | ServerSystem/Lua/lcode.c:594-626 | the method on the instructions and list heads in place does what the function about which the theorems speak does |
| CodeGen.FuncState.CodeArith | ServerSystem/Lua/lcode.c:661-678 | the method on the instructions and list heads in place does what the function about which the theorems speak does |
| CodeGen.FuncState.CodeComp | ServerSystem/Lua/lcode.c:681-694 | the method on the instructions and list heads in place does what the function about which the theorems speak does |
| CodeGen.FuncState.Expression | ServerSystem/Lua/lcode.c:697-789 | the method on the instructions and list heads in place does what the function about which the theorems speak does |
| CodeGen.FuncState.NeedValue | ServerSystem/Lua/lcode.c:122-128 | true if and only if some jump of the list carries no value |
| TableModel.BrentLinks | ServerSystem/Lua/ltable.c:382-429 | chains end, a node has at most one predecessor, every key is reached from its main position, and a key off its main position collides with one that is in its own |
| TableInsert.OverwriteKeeps | ServerSystem/Lua/ltable.c:399-429 | a key that replaces one whose value is nil, which may still be linked, keeps the invariant and every other entry |
| TableInsert.InsertKeeps | ServerSystem/Lua/ltable.c:399-429 | a key that goes to the free place because the colliding node is in its main position: the same |
| TableInsert.MoveKeeps | ServerSystem/Lua/ltable.c:399-429 | a key that drives the colliding node to the free place: the same, the moved entry included |
| TableCount.ComputeSizes | ServerSystem/Lua/ltable.c:189-208 | computesizes returns the best size for the counts |
| TableCount.SizesOfKeys | ServerSystem/Lua/ltable.c:189-208 | said of the keys: the size is the largest power of two n with more than n/2 of the slots 1 to n in use, and how many keys that are |
| TableSupport.OverflowKeeps | ServerSystem/Lua/ltable.c:297-349 | the overflow error comes with the array part enlarged already, and nothing is lost by it: no key of the hash part belongs to the new slots, because with such a key the nodes would have sufficed |
| TableSupport.HashUse | ServerSystem/Lua/ltable.c:333-349 | the hash part is sized for exactly the keys that do not go to the array part, the new one counted |
| TableSupport.RoomForKey | ServerSystem/Lua/ltable.c:297-349 | while the entries of such a table are inserted again, and for the new key after them, there is a free node: rehash is not called again |
| Table.LuaTable.FindInChain | ServerSystem/Lua/ltable.c:435-491 | the search along a chain finds the key's node or there is none |
| Table.LuaTable.GetNum | ServerSystem/Lua/ltable.c:435-449 | luaH_getnum finds the place of an integer key, in either part, if and only if the table has it |
| Table.LuaTable.GetStr | ServerSystem/Lua/ltable.c:455-463 | luaH_getstr: the same for strings |
| Table.LuaTable.Get | ServerSystem/Lua/ltable.c:469-491 | luaH_get: the same for any key |
| Table.LuaTable.Read | ServerSystem/Lua/ltable.c:469-491 | the value read is the map's value for the key |
| Table.LuaTable.GetFreePos | ServerSystem/Lua/ltable.c:382-388 | the place returned is free and no free node lies at or after lastfree but it; -1 only if no node is free |
| Table.LuaTable.MoveColliding | ServerSystem/Lua/ltable.c:409-417 | the three updates of the move keep the invariant and every entry |
| Table.LuaTable.InsertAfter | ServerSystem/Lua/ltable.c:418-423 | the two updates of the insertion keep the invariant and every entry |
| Table.LuaTable.NewKey | ServerSystem/Lua/ltable.c:399-429 | newkey gives the key a node or an array slot and changes no value; it fails if and only if no node is free where one is needed and the keys that do not go to the array part are more than a hash part can have, and then too the table is in order and its map unchanged |
| Table.LuaTable.Set | ServerSystem/Lua/ltable.c:494-529 | luaH_set, luaH_setnum and luaH_setstr return the key's place and change no value; a nil index is the error for nil, and overflow is an error exactly for a missing key when newkey fails; neither error changes the map |
| Table.LuaTable.Put | ServerSystem/Lua/ltable.c:494-505 | after t[key] = v the map has v for that key and its old values for all others, through any moves and rehashes; the errors are characterised exactly, and after them the table is in order with its old map |
| Table.LuaTable.Resize | ServerSystem/Lua/ltable.c:297-324 | resize keeps the map; it fails if and only if the hash part would be too large, with the array part enlarged already and the nodes untouched |
| Table.LuaTable.Reinsert | ServerSystem/Lua/ltable.c:297-324 | inserting one entry again never rehashes |
| Table.LuaTable.ResizeArray | ServerSystem/Lua/ltable.c:327-330 | luaH_resizearray to a larger array part, which is what its one caller (lvm.c:706) asks for, keeps the map and never fails |
| Table.LuaTable.NumUseArray | ServerSystem/Lua/ltable.c:222-244 | the counts are those of the array part's keys, slice by slice |
| Table.LuaTable.NumUseHash | ServerSystem/Lua/ltable.c:247-260 | the counts after the hash part, and its total |
| Table.LuaTable.CountKey | ServerSystem/Lua/ltable.c:211-219 | one more key counted in its slice |
| Table.LuaTable.Rehash | ServerSystem/Lua/ltable.c:333-349 | rehash gives the array part the best size for the keys and the hash part the least power of two, keeps the map and leaves room for the key that called for it; it fails if and only if the keys outside the array part, that one counted, are more than a hash part can have, and keeps the map and the invariant then too |
| Table.LuaTable.SetNodeVector | ServerSystem/Lua/ltable.c:272-294 | a hash part of the least power of two at or above the size, all free; too large a size changes nothing |
| Table.LuaTable.Next | ServerSystem/Lua/ltable.c:162-179 | luaH_next returns the first entry with a value after the given key, the end, or the error for an unknown key |
| TableNext.TraversalOnce | ServerSystem/Lua/ltable.c:137-179 | a traversal from nil, during which values but no keys change, visits no entry twice and stops |
| TableNext.TraversalComplete | ServerSystem/Lua/ltable.c:137-179 | a finished traversal has visited every key that had a value all the time |
| Table.LuaTable.GetN | ServerSystem/Lua/ltable.c:560-575 | luaH_getn returns a border: t[r] is not nil or r is 0, and t[r + 1] is nil |
| Table.LuaTable.UnboundSearch | ServerSystem/Lua/ltable.c:532-553 | so does unbound_search, its linear search after overflow included |
| Checker.RunTest | ServerSystem/Lua/ldebug.c:344-361 | the even/odd test is exact: a word is an instruction, not the count of a SETLIST, if and only if the run of SETLIST-like words before it is even |
| Checker.RunIsEven | ServerSystem/Lua/ldebug.c:344-361 | the loop of the test |
| CheckerExact.FieldsABC | ServerSystem/Lua/lopcodes.h:34-112 | the operands of an instruction word are those it was made of, at the bit positions of lopcodes.h |
| CheckerExact.FieldsABx | ServerSystem/Lua/lopcodes.h:34-112 | the same for words with a wide operand, signed in excess 131071 |
| CheckerExact.InstrExact | ServerSystem/Lua/ldebug.c:317-474 | symbexec passes an instruction if and only if its registers are in the frame, its constants, upvalues and prototypes exist, its unused operands are zero, its jumps and skips lead to instructions, its open results are used, and what its opcode asks for holds (CONCAT: B below C, and so on) |
| CheckerExact.AcceptsExact | ServerSystem/Lua/ldebug.c:276-487 | luaG_checkcode accepts exactly the functions with a proper frame all of whose instructions are such |
| Checker.CheckCode | ServerSystem/Lua/ldebug.c:317-486 | luaG_checkcode accepts exactly the prototypes whose prechecks hold and whose instructions all pass |
| Checker.SkipExact | ServerSystem/Lua/lvm.c:411-415 | from an accepted LOADBOOL, skipping leads to an instruction if and only if the word after next exists and the next one takes no word; with C 1 it always does |
| Checker.StepSound | ServerSystem/Lua/lvm.c:403-745 | one step of the machine from an instruction of an accepted function stays on its instructions if and only if it is not a LOADBOOL with C above 1 before the last word or before a word that takes the next one |
| Checker.PathsExact | ServerSystem/Lua/lvm.c:403-745 | all paths of an accepted function stay on its instructions if and only if none of them meets such a LOADBOOL |
| Checker.PathSafe | ServerSystem/Lua/lvm.c:403-745 | a path that has met none ends on an instruction |
| Checker.PathSound | ServerSystem/Lua/lvm.c:403-745 | no path through an accepted function whose LOADBOOLs have C 0 or 1 leaves the code or executes the count of a SETLIST |
| Checker.OperandsSound | ServerSystem/Lua/ldebug.c:304-475 | registers named by an instruction are in the frame; constants, upvalues and prototypes exist; open results are used by the next instruction |
| Checker.CapturesSound | ServerSystem/Lua/lvm.c:719-738 | the pseudo-instructions after a CLOSURE name upvalues and registers that exist |
| Checker.SkipperAccepted | ServerSystem/Lua/ldebug.c:374-381 | LOADBOOL with C 2 before the final RETURN is accepted, and the machine leaves the code |
| PatternMeaning.ClassBytes | ServerSystem/Lua/lstrlib.c:226-243 | each class letter by its bytes in the C locale |
| PatternMeaning.ClassRest | ServerSystem/Lua/lstrlib.c:226-243 | a capital letter is the complement, and any other character stands for itself |
| PatternMeaning.SetExact | ServerSystem/Lua/lstrlib.c:246-268 | a set holds a character if and only if one of its members, found by stepping over escapes, ranges and single characters, is or contains it; a caret complements |
| PatternMeaning.SetEndExact | ServerSystem/Lua/lstrlib.c:202-224 | a set ends after the first bracket that is neither escaped nor its first character, and is malformed if there is none |
| PatternMeaning.ClassExact | ServerSystem/Lua/lstrlib.c:202-278 | where a single-character class ends and what it holds: escape, set, dot, or the character itself |
| PatternMeaning.SuffixExact | ServerSystem/Lua/lstrlib.c:413-441 | after such a class, *, + and ? take the largest count for which the rest does not fail, - the smallest, within their bounds; without a suffix it is taken once |
| PatternMeaning.AtOpen | ServerSystem/Lua/lstrlib.c:368-373 | an opening parenthesis opens a capture or, before a closing one, takes the position |
| PatternMeaning.AtClose | ServerSystem/Lua/lstrlib.c:374-376 | a closing parenthesis closes the last open capture |
| PatternMeaning.AtBalance | ServerSystem/Lua/lstrlib.c:379-383 | %b with its two delimiters |
| PatternMeaning.AtFrontier | ServerSystem/Lua/lstrlib.c:384-395 | %f matches where the set holds the next character and not the one before |
| PatternMeaning.AtStop | ServerSystem/Lua/lstrlib.c:406-412 | the end of the pattern, and $ at its end |
| PatternMeaning.BackReferenceText | ServerSystem/Lua/lstrlib.c:354-363 | %1 to %9 match the text of a closed capture again; position captures and captures that are open or missing do not |
| PatternSearch.AllFail | ServerSystem/Lua/lstrlib.c:365-440 | if match fails, every choice of repetition counts fails |
| PatternSearch.Finds | ServerSystem/Lua/lstrlib.c:301-326 | if match succeeds or raises an error, some choice has that outcome, and every choice preferred to it (more repetitions, fewer for a minus, decided at the first difference) fails |
| PatternSearch.SearchExact | ServerSystem/Lua/lstrlib.c:365-440 | match has an outcome if and only if it is the outcome of the most preferred choice that does not fail |
| PatternSearch.SearchCaptures | ServerSystem/Lua/lstrlib.c:329-351 | after a match the end and all captures lie in the subject, and captures that were closed before are unchanged |
| PatternSearch.BalanceExact | ServerSystem/Lua/lstrlib.c:281-298 | matchbalance finds t if and only if the text up to t is the shortest balanced one; a delimiter that both opens and closes closes |
| Matcher.MatchBracketClass | ServerSystem/Lua/lstrlib.c:245-265 | the loop over a set decides membership, ranges, escapes and complement included |
| Matcher.SingleMatch | ServerSystem/Lua/lstrlib.c:268-275 | the class at p holds the character |
| Matcher.FindClassEnd | ServerSystem/Lua/lstrlib.c:202-223 | the end of the class, or the two malformed-pattern errors |
| Matcher.MatchState.CaptureToClose | ServerSystem/Lua/lstrlib.c:194-199 | the last open capture, or the error |
| Matcher.MatchState.MatchBalance | ServerSystem/Lua/lstrlib.c:281-298 | the loop of matchbalance computes the scan of BalanceExact |
| Matcher.MatchState.MatchCapture | ServerSystem/Lua/lstrlib.c:354-362 | a back reference matches the same text again; it fails on a position capture and is an error on an open or missing one |
| Matcher.MatchState.StartCapture | ServerSystem/Lua/lstrlib.c:329-340 | the search with a new capture; on failure the level and all captures are as before |
| Matcher.MatchState.EndCapture | ServerSystem/Lua/lstrlib.c:343-351 | the search with the capture closed; on failure it is open again |
| Matcher.MatchState.MaxExpand | ServerSystem/Lua/lstrlib.c:301-313 | the longest repetition that lets the rest match |
| Matcher.MatchState.MinExpand | ServerSystem/Lua/lstrlib.c:316-326 | the shortest repetition that lets the rest match |
| Matcher.MatchState.Match | ServerSystem/Lua/lstrlib.c:365-440 | match terminates with the outcome of the search; a match leaves its captures, a failure the level and every capture as they were |
| Matcher.MatchState.Find | ServerSystem/Lua/lstrlib.c:515-532 | the leftmost place where the pattern matches or raises an error; an anchored pattern is tried once |
| ChunkBytes.WordBytes | ServerSystem/Lua/ldump.c:48-52 | words are written with the least significant byte first |
| ChunkBytes.ConstBytes | ServerSystem/Lua/ldump.c:80-105 | the bytes of a constant of each type |
| ChunkBytes.ConstRead | ServerSystem/Lua/lundump.c:100-128 | what any bytes are read as where a constant is due |
| ChunkBytes.SampleChunk | ServerSystem/Lua/ldump.c:129-164 | the whole chunk of a function with a constant of each type and debug information, byte by byte |
| ChunkTrip.StringTrip | ServerSystem/Lua/lundump.c:76-88 | a string, with zeros inside or none at all, is read back whatever follows |
| ChunkTrip.ConstTrip | ServerSystem/Lua/lundump.c:100-128 | so is a constant of each type |
| ChunkTrip.LocVarTrip | ServerSystem/Lua/lundump.c:145-153 | a local variable is read back if and only if its positions are not negative |
| ChunkTrip.VectorTrip | ServerSystem/Lua/lundump.c:90-96 | so is a vector, if and only if all its elements are |
| ChunkTrip.AcceptsBare | ServerSystem/Lua/ldebug.c:276-285 | a function that passes the checker passes it without debug information |
| ChunkTrip.FunctionTrip | ServerSystem/Lua/lundump.c:161-181 | reading what DumpFunction wrote succeeds if and only if nesting, line numbers and the checker allow it, consumes exactly those bytes, and gives the function with missing sources taken from the function around it |
| ChunkTrip.SameExact | ServerSystem/Lua/ldump.c:129-141 | an unstripped dump gives the same function back if and only if every function in it names its source |
| ChunkTrip.ChunkRoundTrip | ServerSystem/Lua/lundump.c:195-209 | undump inverts dump for every nested prototype, stripped or not, under the conditions of FunctionTrip and SameExact |
| Zio.StreamIsFlat | ServerSystem/Lua/lzio.c:21-32 | what a reader hands out does not depend on how it splits the bytes, as long as no piece is empty |
| Zio.ZIO.Fill | ServerSystem/Lua/lzio.c:21-32 | luaZ_fill takes the next byte, or reports the end |
| Zio.ZIO.Lookahead | ServerSystem/Lua/lzio.c:35-45 | luaZ_lookahead takes nothing |
| Zio.ZIO.Read | ServerSystem/Lua/lzio.c:58-71 | luaZ_read copies the next bytes across any piece boundaries and returns how many are missing |
| Undump.LoadState.LoadBlock | ServerSystem/Lua/lundump.c:48-52 | the method gives the value or error the format has for the bytes still in the stream, and leaves the rest of them |
| Undump.LoadState.LoadChar | ServerSystem/Lua/lundump.c:54-59 | the method gives the value or error the format has for the bytes still in the stream, and leaves the rest of them |
| Undump.LoadState.LoadInt | ServerSystem/Lua/lundump.c:61-67 | the method gives the value or error the format has for the bytes still in the stream, and leaves the rest of them |
| Undump.LoadState.LoadNumber | ServerSystem/Lua/lundump.c:69-74 | the method gives the value or error the format has for the bytes still in the stream, and leaves the rest of them |
| Undump.LoadState.LoadString | ServerSystem/Lua/lundump.c:76-88 | the method gives the value or error the format has for the bytes still in the stream, and leaves the rest of them |
| Undump.LoadState.LoadCode | ServerSystem/Lua/lundump.c:90-96 | the method gives the value or error the format has for the bytes still in the stream, and leaves the rest of them |
| Undump.LoadState.LoadConstants | ServerSystem/Lua/lundump.c:100-128 | the method gives the value or error the format has for the bytes still in the stream, and leaves the rest of them |
| Undump.LoadState.LoadInner | ServerSystem/Lua/lundump.c:130-134 | the method gives the value or error the format has for the bytes still in the stream, and leaves the rest of them |
| Undump.LoadState.LoadDebug | ServerSystem/Lua/lundump.c:137-159 | the method gives the value or error the format has for the bytes still in the stream, and leaves the rest of them |
| Undump.LoadState.LoadFunction | ServerSystem/Lua/lundump.c:161-181 | the method gives the value or error the format has for the bytes still in the stream, and leaves the rest of them |
| Undump.LoadState.LoadChunk | ServerSystem/Lua/lundump.c:195-209 | luaU_undump: the result is a function of the bytes alone, however the reader splits them |
| Dumper.DumpState.DumpBlock | ServerSystem/Lua/ldump.c:29-37 | writes the bytes of the format; once the writer has reported an error nothing more is written and the status stays |
| Dumper.DumpState.DumpString | ServerSystem/Lua/ldump.c:61-74 | writes the bytes of the format; once the writer has reported an error nothing more is written and the status stays |
| Dumper.DumpState.DumpCode | ServerSystem/Lua/ldump.c:55-59 | writes the bytes of the format; once the writer has reported an error nothing more is written and the status stays |
| Dumper.DumpState.DumpConstants | ServerSystem/Lua/ldump.c:80-105 | writes the bytes of the format; once the writer has reported an error nothing more is written and the status stays |
| Dumper.DumpState.DumpInner | ServerSystem/Lua/ldump.c:106-108 | writes the bytes of the format; once the writer has reported an error nothing more is written and the status stays |
| Dumper.DumpState.DumpDebug | ServerSystem/Lua/ldump.c:111-127 | writes the bytes of the format; once the writer has reported an error nothing more is written and the status stays |
| Dumper.DumpState.DumpFunction | ServerSystem/Lua/ldump.c:129-141 | writes the bytes of the format; once the writer has reported an error nothing more is written and the status stays |
| Dumper.DumpState.Dump | ServerSystem/Lua/ldump.c:153-164 | with status 0 the writer has been given exactly the chunk, otherwise a beginning of it |
| PrecedenceRows.ByManual | ServerSystem/Lua/lparser.c:831-855 | subexpr reads a whole expression as a tree if and only if its text stands there and it is grouped by the rows of the reference manual (or; and; comparisons; ..; + -; * / %; unary; ^), with .. and ^ to the right |
| PrecedenceRows.Pairs | ServerSystem/Lua/lparser.c:812-820 | how a op1 b op2 c is read, for all pairs of operators |
| PrecedenceRows.UnaryPairs | ServerSystem/Lua/lparser.c:824-838 | a unary operator before a op b applies to a power as a whole and otherwise to the first operand |
| PrecedenceRows.UnaryTokens | ServerSystem/Lua/lparser.c:781-788 | which tokens are which unary operators |
| Precedence.SubExprExact | ServerSystem/Lua/lparser.c:831-856 | subexpr returns a tree if and only if its text stands there with the parentheses it needs under the limit, the first operator after it does not clear the limit or bind into it, and the nesting is within bounds |
| Precedence.ParenthesizeFits | ServerSystem/Lua/lparser.c:812-822 | parentheses around the operands whose operators do not clear the limit make any tree fit, and change no operator |
| Precedence.ParenthesizeMinimal | ServerSystem/Lua/lparser.c:812-822 | a tree that fits gets no parentheses |
| Precedence.Rebuilds | ServerSystem/Lua/lparser.c:831-856 | every operator tree so printed is read back |
| Precedence.Associativity | ServerSystem/Lua/lparser.c:812-822 | powers and concatenations group to the right, all other operators to the left |
| Precedence.LexState.SimpleExpression | ServerSystem/Lua/lparser.c:670-778 | operands and parenthesised expressions, and their errors |
| Precedence.LexState.FirstOperand | ServerSystem/Lua/lparser.c:833-840 | a unary operator takes its operand with priority 8 |
| Precedence.LexState.SubExpression | ServerSystem/Lua/lparser.c:831-856 | the recursion and loop of subexpr, with the level counter, compute SubExpr |
| Upvalues.OneCell | ServerSystem/Lua/lfunc.c:53-79 | a thread's list has at most one open cell for a slot, so captures of one slot share it |
| Upvalues.LinkKeeps | ServerSystem/Lua/lfunc.c:72-76 | linking a cell after the head keeps the ring and touches no other field |
| Upvalues.UnlinkKeeps | ServerSystem/Lua/lfunc.c:82-86 | unlinkupval keeps the ring of the other cells |
| Upvalues.SpliceKeeps | ServerSystem/Lua/lfunc.c:58-71 | the new cell in its position keeps the list strictly descending |
| Upvalues.CloseTopKeeps | ServerSystem/Lua/lfunc.c:96-112 | one round of luaF_close keeps the ring, the lists of all threads, and that the ring holds exactly the open cells |
| Upvalues.CloseEnd | ServerSystem/Lua/lfunc.c:99-99 | the cells closed are exactly those at or above the level |
| Upvalues.State.Search | ServerSystem/Lua/lfunc.c:58-66 | the position of the level in the list, and the node before it |
| Upvalues.State.FindUpval | ServerSystem/Lua/lfunc.c:53-79 | luaF_findupval returns the one open, live cell of the slot; a new cell is chained and linked, no other thread's list changes, and the ring still holds exactly the open cells |
| Upvalues.State.MakeUpval | ServerSystem/Lua/lfunc.c:67-78 | the new cell, chained and linked, with every other cell's value kept |
| Upvalues.State.Close | ServerSystem/Lua/lfunc.c:96-112 | luaF_close closes exactly the cells at or above the level; each live one keeps the slot's last value, a dead one is freed, and the ring still holds exactly the open cells |
| Sort.SplitKept | ServerSystem/Lua/ltablib.c:244-252 | sorting one side of a split keeps the split |
| Sort.ScanUp | ServerSystem/Lua/ltablib.c:224-228 | ++i stops at or before the pivot at u-1: the error "invalid order function" is not reached |
| Sort.ScanDown | ServerSystem/Lua/ltablib.c:230-233 | --j stops at or after l: the same |
| Sort.ChoosePivot | ServerSystem/Lua/ltablib.c:196-221 | the median of three, with its ends in order; ranges of two and three are sorted |
| Sort.Partition | ServerSystem/Lua/ltablib.c:222-243 | the partition rearranges the range, and nothing left of i is after a[i], nothing right of it before |
| Sort.DepthStep | ServerSystem/Lua/ltablib.c:244-252 | a recursion into less than half the range adds one to the logarithm |
| Sort.AuxSort | ServerSystem/Lua/ltablib.c:193-254 | under any strict weak order the range is sorted and rearranged in place, nothing outside it changes, and the recursion is at most log2 of the size deep |
| Sort.Sort | ServerSystem/Lua/ltablib.c:256-264 | table.sort on positions 1 to n |
| QuoteEscapes.NamedEscapes | ServerSystem/Lua/llex.c:300-308 | the byte of each escape that names a control character |
| QuoteEscapes.DecimalEscapes | ServerSystem/Lua/llex.c:312-325 | up to three digits stand for the byte with that number, and a larger number is the error |
| QuoteEscapes.OtherEscapes | ServerSystem/Lua/llex.c:312-315 | any other escaped character stands for itself |
| QuoteEscapes.WrittenForms | ServerSystem/Lua/lstrlib.c:696-723 | how %q writes each byte |
| Quote.ScanQuoteByte | ServerSystem/Lua/llex.c:290-343 | each byte's quoted form is read back as that byte, whatever follows |
| Quote.QuoteRoundTrip | ServerSystem/Lua/lstrlib.c:696-723 | for every byte string, lexing its quoted form gives it back, unless its newlines bring the line number to the limit |
| Quote.AddQuoted | ServerSystem/Lua/lstrlib.c:696-723 | the loop of addquoted appends the quoted form |
| Quote.LexState.IncLineNumber | ServerSystem/Lua/llex.c:127-135 | a line end of one character or of two different ones is one line |
| Quote.LexState.ReadDigits | ServerSystem/Lua/llex.c:318-328 | at most three digits are taken for an escape |
| Quote.LexState.ReadEscape | ServerSystem/Lua/llex.c:301-335 | each escape saves one character, or is the error it calls for |
| Quote.LexState.ReadString | ServerSystem/Lua/llex.c:290-343 | read_string returns the characters between the delimiters, or its error |

## Left out

- Weak tables, userdata finalizers and GC pacing: the collector model has none of them; `weak` lists are empty and the finalize state only ends the cycle.
- `luaC_mark` overwrites a mark without a barrier; it is not a legal step of the model.
- Resizing of the string table and of stacks during a collection.
- `Proto.name`, added in this repository, is not traversed by `traverseproto` and not dumped; it is no part of the models.
- Gray lists and `rootgc` are sequences of addresses in the collector, not `gclist` and `next` links.
- The collector's mark byte is a colour and a fixed flag; GcBits ties these to the bits.
- Code generator: nil constants (luaK_nil merges LOADNILs, for which alone `lasttarget` is kept), numerals with constant folding, upvalues, globals, indexing, calls and concatenation; other operands behave like locals.
- Code generator errors set a flag that stays, instead of unwinding; more than 2^18 constants are not an error of the model.
- CodeExact.LogicalExact: comparisons and arithmetic, whose truth no choice of locals decides, are left to GeneratedExact.
- CodeGen.FuncState.AddK: searches linearly for the constant, where the source keeps a Lua table from constants to indices.
- Statement and block parsing, and the machine's calls, metamethods, coroutines, hooks and garbage collection points.
- Tables: NaN as an index, -0, and dead keys (which GcKeys treats); keys are compared by an abstract equality and hashed by an abstract hash.
- Table.LuaTable.ResizeArray: only for growth, which is all that its one call (lvm.c:706-707) asks for; the array part has at most 2^26 slots.
- Checker.CheckCode: symbexec as luaG_checkcode calls it; the tracing mode for error messages is not modelled.
- Checker.OperandsSound: of the registers a TFORLOOP calls with, only those its operands name.
- Matcher.MatchState.Match: character classes are those of the C locale, and the depth of C recursion is not bounded.
- gmatch, gsub and pushing captures.
- Chunks: the host is little endian with 4-byte int, size_t and Instruction and 8-byte numbers; running out of memory is not an error of the model beyond the overflow check of vectors.
- Dumper.DumpState.Dump: the writer's answers are given in advance, one per call.
- Precedence.SubExprExact: suffixes of primary expressions (calls, indexing, fields), constructors and function bodies are an error of the model.
- Upvalues: cells are positions in a store and pointers are numbers, so that a freed cell stays in the store, marked as freed.
- Sort.AuxSort: the order function is total and has no effects; under an order that is no strict weak order nothing is claimed.
- Quote.LexState.ReadString: the input is a sequence, not a ZIO, and the token buffer does not overflow.
- Floating point, locale handling, error-message texts, and the server's sockets, files and bindings.
