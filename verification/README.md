# Verified models of the Inox runtime

Dafny models of five parts of Inox, with proofs of what their code promises:

- the embedded transactional store (`internal/buntdb`): item order, trees and indexes, write transactions, the
  append-only command log, loading and torn writes, rollback, commit, crashes, the online compaction, range scans,
  size accounting;
- the bytecode compiler (`internal/core/compiler.go`, `bytecode.go`) for literals, variables, and/or, if and for as
  statements and as expressions, break/continue, blocks and list literals with spreads, together with the virtual
  machine (`vm.go`) and the tree-walking evaluator (`tree_walk_eval.go`) on that fragment;
- the pattern iterators and look-ahead filters (`iterator.go`);
- debugger stepping (`debug.go`), value histories (`history.go`) and the context teardown protocol (`context.go`).

`dafny verify dfyconfig.toml` checks everything.

## How the store is modelled

A B-tree is a set in which the comparison tells members apart; setting replaces, deleting removes, the equivalent item.
The log file is a byte sequence. `Resp` holds the writer and the reader of the command format, `Damage` what the reader
makes of any other bytes, `Replay` what commands do to a key map, `Store` the key map with its trees, `Transactions` the
write operations as functions on values.
`Database` and `TxObject` are the mutable objects, each method proved against those functions. `System` is the state
machine: readers, one writer, commits that may fail part way, crashes with reopening, and the compaction, interleaved
at the granularity of the database lock. `Scan` and `Size` cover range scans and size accounting.

Results worth knowing:

- The loader skips a Set whose deadline has passed instead of deleting the key, so an older value can come back.
  `LoadShowsUnlessReappears` says exactly when, key by key, for any log, and `ReloadShowsUnlessResurfaces` for every
  state of every run; `LogRefinesMemory` gives the condition for the whole key map.
- A deadline before the epoch is written as an unsigned number that the loader refuses. `LogOpensIffEncodable` makes
  "the log opens again" an if-and-only-if.
- Foreign bytes at the end of the file are refused if they hold a line feed and silently cut off if they do not
  (`ForeignBytes`). A null byte between commands shifts the place of a later cut, which then destroys a good command
  (`PaddingMisplacesTheCut`).
- A second `DeleteAll` in a transaction goes back to the index definitions of the first: a dropped index returns
  (`DroppedIndexReturns`) and one that was dropped and created anew silently reverts (`RecreatedIndexReverts`).
  `DeleteAllKeepsIndexIff` and `RedefinedIs` say for every transaction exactly which operations in between cause that.
  Rollback is exact nonetheless.

## How the compiler is modelled

`CodeGen` gives the code of every construct with its jump targets in place, as a function of its position. `Compiler`
is the mutable one-pass compiler, with placeholders, recorded positions and in-place patching, and is proved to produce
that code. `Machine` is the virtual machine, with its stack of 200 slots that locals and values share.

`ShortCircuit` says what compiled code is to compute: evaluation that skips the right operand of and/or when the left
one decides, together with the greatest number of stack slots it needs. `ExprCorrect` and `StmtCorrect` prove that the
machine does exactly that, and `Programs` states it for whole chunks: a chunk that reads no variable without a value runs
to its end with the values and variables of short-circuit evaluation if that succeeds within the stack, and stops with an
error otherwise (`ProgramRuns`, `ProgramExact`). `Scope` is a static check that guarantees this of a chunk
(`CheckedReadsAreBound`).

`Ast` also holds the tree-walking evaluator. It evaluates both operands of and/or, and looks at the right one only when
the left one does not decide. `LazyEval` is the common reference: short-circuit evaluation with no machine in mind, which
notes whether it overlooks a right operand that fails or is not a boolean, and whether it appends an element after a
spread. The walker succeeds exactly when it succeeds and overlooks nothing (`WalkerIs`), compiled code exactly when it
succeeds and appends nothing (`CompiledIs`), each with its values. So they agree on a chunk if and only if it fails, or
overlooks something exactly when it appends something (`WalkAgreesIff`); with the limits of the stack that becomes the
condition for the machine to end as the walker does (`MachineAgreesIff`).

- The ways to differ are real: a skipped right operand that fails (`SkippedOperandFails`), a right operand that is not a
  boolean (`RightOperandUnchecked`) and a plain list element after a spread (`AppendIsMissing`).
- That a variable has a value when read matters: without one the walker stops with an error and the machine goes on with
  what an unused stack slot holds (`UnboundVariableIsEmpty`). `Scope` is this project's own check, which neither the
  compiler nor the walker makes.
- A for expression keeps the values of all its turns on the stack, so one over 200 elements or more stops the machine,
  and so does a list literal of more than 200 elements (`LongForFaults`, `LongLiteralFaults`).
- The machine has no case for the append instruction that is emitted for a plain list element after a spread.
  `BuiltIff` and `ListLiteral` prove that a literal is built exactly when its elements succeed, its spreads come last
  and it fits on the stack.

`View`, `StmtView` and `Meaning` unfold the recursive definitions one construct at a time for these proofs.

## Other results

- The look-ahead filters use a nil key as "nothing stored". `InOrderIff` proves that they give the accepted pairs in
  order in every interleaving of HasNext and Next exactly when no accepted key is nil.
- List, tuple, object and record patterns enumerate with the same loop (`iterator.go` 1176-1334 and 1336-1412); one
  class models it. String sequences have their own (`iterator.go` 980-1056).
- A continue command keeps a step request that a breakpoint cut short. `ContinueNeverStopsIff` gives the condition and
  `LeftOverNext` what happens.
- A history with maximum length 1 fails at its first change (`ValueHistory.AddChange`).

## Model

| member | source | states |
|---|---|---|
| `Items.ItemOrderIsTotal` | internal/buntdb/buntdb.go:1441-1469 | the item order of every tree is a strict weak order, total on distinct keys, when the index comparison is a strict weak order |
| `Items.SameMeansSameKey` | internal/buntdb/buntdb.go:1441-1469 | two stored items take one tree position only if they share the key; for the key and expiry trees exactly when |
| `Items.CompareCompound` | internal/buntdb/buntdb.go:2156-2175 | true if and only if the first comparison that tells the two values apart puts the first one first |
| `Items.CompoundLessIs` | internal/buntdb/buntdb.go:2156-2175 | the same of the specified combination, for any comparisons |
| `Items.CompoundIsStrictWeak` | internal/buntdb/buntdb.go:2156-2175 | the combination of any list of strict weak orders is one |
| `Items.DescIsStrictWeak` | internal/buntdb/buntdb.go:2363-2367 | reversing a strict weak order gives one |
| `Items.IndexString` | internal/buntdb/buntdb.go:2275-2310 | equals lexicographic order on ASCII-lowercased bytes, for all strings |
| `Common.LexLessIs` | internal/buntdb/buntdb.go:1467-1468 | the order of keys: the first differing byte decides, or one key is a proper prefix of the other |
| `Resp.HeaderWhole` | internal/buntdb/buntdb.go:1367-1372 | a count line written by the writer is read back as its number and its length |
| `Resp.HeaderCut` | internal/buntdb/buntdb.go:842-871 | a count line cut anywhere is an unexpected end of file |
| `Resp.BulkWhole` | internal/buntdb/buntdb.go:1374-1381 | a bulk string of any bytes is read back |
| `Resp.BulkCut` | internal/buntdb/buntdb.go:875-919 | a bulk string cut anywhere is an unexpected end of file |
| `Resp.WordsRoundTrip` | internal/buntdb/buntdb.go:1384-1416 | the words written for a command mean that command again, deadlines in whole seconds, exactly when the deadline is not before the epoch |
| `Resp.TornWriteRecovery` | internal/buntdb/buntdb.go:813-980 | from any prefix of any encoded log the loader applies exactly the wholly contained commands, returns their length, reports unexpected EOF iff the cut is off a boundary, never invalid |
| `Resp.LogRoundTrip` | internal/buntdb/buntdb.go:813-980 | loading an encoded log gives its commands, its length and no error |
| `Resp.LogOpensIffEncodable` | internal/buntdb/buntdb.go:932-948 | a log opens again if and only if no logged deadline is before the epoch |
| `Resp.LogRefused` | internal/buntdb/buntdb.go:937-940 | such a deadline stops the load after the commands before it |
| `Resp.LoadOffset` | internal/buntdb/buntdb.go:813-980 | the returned offset counts whole commands only and lies within the file |
| `Damage.CommandIs` | internal/buntdb/buntdb.go:842-919 | for any bytes at any place: the reader finds a command if and only if one is there in full, an early end if and only if the file ends inside it, and damage if and only if a line, a length or a closing pair is wrong |
| `Damage.InterpretIs` | internal/buntdb/buntdb.go:921-977 | which words are set, del and flushdb, which part counts and deadline kinds are refused, which short words crash the loader, and what every accepted command means |
| `Damage.NextGoesOn` | internal/buntdb/buntdb.go:823-977 | null bytes and commands without parts are skipped, whole commands applied or refused by their meaning |
| `Damage.StatusMeans` | internal/buntdb/buntdb.go:813-980 | for any file: success if and only if everything was read, an unexpected end if and only if the file ends inside the command where loading stops, invalid if and only if what stands there is damaged or foreign |
| `Damage.TailDecides` | internal/buntdb/buntdb.go:813-980 | after good commands, damaged or foreign bytes give exactly those commands, their length and "invalid"; a command the file ends in gives them and "unexpected end" |
| `Damage.ForeignBytes` | internal/buntdb/buntdb.go:842-851 | bytes that do not start a command are refused if they hold a line feed, and taken for a cut-off command if not |
| `Damage.BadCountLine` | internal/buntdb/buntdb.go:854-871 | a count line that is not digits and a carriage return is refused |
| `Damage.UnclosedPart` | internal/buntdb/buntdb.go:905-915 | a bulk string that is not closed where its length says is refused |
| `Damage.ForeignCommand` | internal/buntdb/buntdb.go:921-977 | a well-formed command with an unknown word or a wrong number of parts is refused |
| `Damage.SignedParse` | internal/buntdb/buntdb.go:938-938 | signed seconds are read over the whole 64-bit range and no further |
| `Damage.PaddingMisplacesTheCut` | internal/buntdb/buntdb.go:828-838 | null bytes are not counted in the offset: after one, a torn last command makes the cut go through a good command, which is lost |
| `Replay.LoadShowsUnlessReappears` | internal/buntdb/buntdb.go:949-958 | per key, a load shows what was visible if and only if no older value reappears under an expired Set |
| `Replay.ReappearanceHappens` | internal/buntdb/buntdb.go:949-958 | a permanent value overwritten by an expired one comes back on load |
| `Replay.LoadIsExactIffNothingExpired` | internal/buntdb/buntdb.go:949-958 | a load rebuilds the whole key map exactly when nothing in it has expired |
| `Replay.WritesInAnyOrder` | internal/buntdb/buntdb.go:1246-1253 | redo records have the same effect in whatever order the map iteration meets them |
| `Replay.ReplayedStored` | internal/buntdb/buntdb.go:1384-1406 | replaying what is on disk gives the replay with deadlines in whole seconds |
| `Store.InsertAgrees` | internal/buntdb/buntdb.go:492-548 | inserting keeps every index equal to the matching items and the expiry tree equal to the expiring items |
| `Store.RemoveAgrees` | internal/buntdb/buntdb.go:550-576 | so does deleting, present or not |
| `Store.BuildIs` | internal/buntdb/buntdb.go:492-576 | what the rebuilt database is, tree by tree: the expiring items, and for each definition the items it matches |
| `Store.SweepFindsThePast` | internal/buntdb/buntdb.go:606-612 | the sweep's tree walk collects exactly the items whose deadline is before now |
| `Transactions.SweepDeletesThePast` | internal/buntdb/buntdb.go:606-623 | deleting what it collects leaves exactly the items whose deadline is not before now, in every tree |
| `Transactions.ChangesOneKey` | internal/buntdb/buntdb.go:492-576 | Set and Delete change the database at one key and keep it consistent and its definitions |
| `Transactions.PerformIs` | internal/buntdb/buntdb.go:1539-1645 | every operation, in terms of maps: a Set replaces the item of its key, a Delete removes it, a DeleteAll empties the key map and goes back to the definitions of the first, an index exists with its items as soon as it is created and is gone once dropped |
| `Transactions.RunIs` | internal/buntdb/buntdb.go:1539-1645 | over a whole transaction the key map is what its operations make of the one at Begin |
| `Transactions.LastWriteDecides` | internal/buntdb/buntdb.go:1539-1645 | the last Set, Delete or DeleteAll that concerns a key decides what is under it |
| `Transactions.RunKeeps` | internal/buntdb/buntdb.go:1116-1147 | after any operations the undo records recover the start and the redo records the present |
| `Transactions.RollbackIsExact` | internal/buntdb/buntdb.go:1199-1224 | after any sequence of Set, Delete, DeleteAll, createIndex and DropIndex, rollback restores keys, expiry tree and every index, definition and contents |
| `Transactions.CommitIsFaithful` | internal/buntdb/buntdb.go:1239-1253 | replaying a commit's records, in any order, over the keys at Begin gives the keys at commit |
| `Transactions.EmptyCommit` | internal/buntdb/buntdb.go:1239-1239 | a commit that writes nothing changed no key |
| `Transactions.DeleteAllKeepsIndexIff` | internal/buntdb/buntdb.go:1116-1147 | in any transaction, the next DeleteAll keeps the definition of an index if and only if the operations since the first DeleteAll leave it as it was then |
| `Transactions.RedefinedIs` | internal/buntdb/buntdb.go:2132-2235 | what any operations after the first DeleteAll make of a definition: the last DeleteAll among them brings the first one back; since then an existing index stays until it is dropped, and after its last drop it is as first created since, or gone |
| `Transactions.DroppedIndexReturns` | internal/buntdb/buntdb.go:1138-1141 | an index dropped after a DeleteAll comes back with its definition through a second one |
| `Transactions.RecreatedIndexReverts` | internal/buntdb/buntdb.go:1138-1141 | an index dropped and created anew with another definition gets the old definition back |
| `System.StepKeeps` | internal/buntdb/buntdb.go:1229-1289 | every step (reads, writes, commits, failed commits, crashes, compaction) keeps: file = encoding of the log, log = committed state, memory = committed state plus the open transaction, copy = scanned keys |
| `System.InvOnEveryRun` | internal/buntdb/buntdb.go:1156-1289 | that holds in every state of every run |
| `System.LogRefinesMemory` | internal/buntdb/buntdb.go:1229-1289 | at every state of every run the file loads completely and gives the committed key map, exactly when none of it has expired; with no writer open that is the memory's |
| `System.ReloadShowsUnlessResurfaces` | internal/buntdb/buntdb.go:949-958 | at every state of every run, key by key, a reload shows what the committed state shows if and only if no older value resurfaces under an item that has come due |
| `System.TreesAgreeOnEveryRun` | internal/buntdb/buntdb.go:492-632 | on every run all trees agree with the key map, inside transactions too |
| `System.CompactionIsExact` | internal/buntdb/buntdb.go:668-803 | in every interleaving, the copied items followed by the log bytes from endpos hold exactly the live key map at the swap |
| `System.ReadersSeeOneCommittedState` | internal/buntdb/buntdb.go:1031-1057 | an open reader sees the state of exactly the transactions committed before it began, in lock order |
| `System.NothingChangesUnderAReader` | internal/buntdb/buntdb.go:1156-1195 | no step changes memory while a reader stays open |
| `System.CrashKeepsPrefix` | internal/buntdb/buntdb.go:987-1025 | reopening after a crash at any byte keeps the whole log and a prefix of the open commit's commands |
| `System.WriteIs` | internal/buntdb/buntdb.go:1539-1645 | on every run a write changes the key map as specified and leaves the committed state |
| `System.CommitIsDurable` | internal/buntdb/buntdb.go:1229-1289 | on every run a commit keeps what its writer saw in memory and for whoever loads the file, which only grows |
| `System.CommittedStays` | internal/buntdb/buntdb.go:1229-1289 | committed transactions stay committed until the process stops |
| `System.RollbackDiscards` | internal/buntdb/buntdb.go:1199-1224 | a rollback and a failed commit leave memory and file as before the transaction |
| `System.TransactionIs` | internal/buntdb/buntdb.go:1031-1057 | on every run, after a commit memory holds what all the operations since BeginWrite, in order, make of the key map then; after a rollback or failed commit it is as it was then |
| `System.WriterAlone` | internal/buntdb/buntdb.go:1156-1195 | while a write transaction is open no reader is, and its operations are exactly the writes since it began |
| `System.ReaderSnapshot` | internal/buntdb/buntdb.go:1156-1195 | from its beginning to its end a reader sees the same memory, whatever else happens |
| `System.CompactionCompletes` | internal/buntdb/buntdb.go:668-803 | undisturbed, a compaction completes and leaves one command for each key |
| `Database.LoadIsReplay` | internal/buntdb/buntdb.go:925-977 | loading commands into memory equals replaying them, with trees rebuilt and indexes emptied by flushdb |
| `Database.ParseCount` | internal/buntdb/buntdb.go:854-871 | the digit loop gives the number of the line or rejects it |
| `Database.ReadCount` | internal/buntdb/buntdb.go:842-871 | reading a count line is ReadHeader |
| `Database.ReadPart` | internal/buntdb/buntdb.go:875-919 | reading a bulk string is ReadBulk |
| `Database.ReadCommandParts` | internal/buntdb/buntdb.go:872-919 | the loop over the parts is ReadParts |
| `Database.NextStep` | internal/buntdb/buntdb.go:823-924 | one turn of the load loop is Next, whose outcomes `Damage` characterises byte by byte |
| `Database.Database.InsertIntoDatabase` | internal/buntdb/buntdb.go:492-548 | the object becomes Insert of its old value; the previous item is returned |
| `Database.Database.DeleteFromDatabase` | internal/buntdb/buntdb.go:550-576 | the object becomes Remove of its old value; the deleted item is returned |
| `Database.Database.RebuildIndex` | internal/buntdb/buntdb.go:332-365 | walking the keys fills the index with exactly the matching items |
| `Database.Database.ReadLoad` | internal/buntdb/buntdb.go:813-980 | offset and status of the load, and the object holding the replayed commands |
| `Database.Database.Open` | internal/buntdb/buntdb.go:987-1027 | a torn tail is cut off; with any other status the file is left as it is |
| `Database.Database.CopyChunk` | internal/buntdb/buntdb.go:712-746 | a chunk copies exactly the keys from the pivot up to the next pivot, which is strictly greater |
| `TxObject.TxHandle.Begin` | internal/buntdb/buntdb.go:1156-1178 | a fresh transaction on the database as it is |
| `TxObject.TxHandle.Set` | internal/buntdb/buntdb.go:1539-1590 | errors first; otherwise the database is the one built from the key map with the new item, and the previous value is returned unless it had expired |
| `TxObject.TxHandle.Get` | internal/buntdb/buntdb.go:1593-1612 | the value of a key unless missing or expired |
| `TxObject.TxHandle.Delete` | internal/buntdb/buntdb.go:1615-1645 | the database without the key; "not found" for missing and expired keys, an expired key being deleted all the same |
| `TxObject.TxHandle.DeleteAll` | internal/buntdb/buntdb.go:1116-1147 | no keys, and the definitions at the first DeleteAll, whose backup is kept once |
| `TxObject.TxHandle.CreateIndex` | internal/buntdb/buntdb.go:2132-2204 | error cases; otherwise the index is there with exactly the items it matches |
| `TxObject.TxHandle.DropIndex` | internal/buntdb/buntdb.go:2207-2235 | error cases; otherwise the index is gone and nothing else |
| `TxObject.TxHandle.RollbackInner` | internal/buntdb/buntdb.go:1199-1224 | whatever order the maps are walked in, the database becomes RolledBack |
| `TxObject.TxHandle.Rollback` | internal/buntdb/buntdb.go:1295-1311 | whatever operations the handle performed, the database is again what it was at Begin |
| `TxObject.TxHandle.Commit` | internal/buntdb/buntdb.go:1229-1289 | the file grows by the encoded commit, or on a failed write is cut back and the database is what it was at Begin |
| `TxObject.UndoableIsRecoverable` | internal/buntdb/buntdb.go:1199-1224 | what the transaction records is what the rollback loops need |
| `Scan.ListingIsUnique` | internal/buntdb/buntdb.go:1676-1749 | a set of items has one listing in order, so "filter then sort" determines the scan |
| `Scan.Walk` | internal/buntdb/buntdb.go:2377-2430 | a bounded tree walk visits the filtered items in order until the callback stops it |
| `Scan.TakenIs` | internal/buntdb/buntdb.go:1676-1749 | what a callback sees is a prefix that ends early only at the first item it answers false on |
| `Scan.WindowsSplit` | internal/buntdb/buntdb.go:1676-1749 | one bound splits the items in two in either direction, two bounds are the intersection, and bounds are inclusive on the side documented |
| `Scan.TreeSeparates` | internal/buntdb/buntdb.go:1441-1469 | each tree's order, ascending or descending, tells its items apart |
| `Scan.BoundsMean` | internal/buntdb/buntdb.go:1701-1715 | the empty-key and keyless sentinels bound exactly the documented value window |
| `Scan.ScanTree` | internal/buntdb/buntdb.go:1676-1749 | every ascending/descending, bounded/unbounded mode gives the items of the window in order |
| `Scan.ScanEqual` | internal/buntdb/buntdb.go:1922-1970 | AscendEqual and DescendEqual visit exactly the items equivalent to the pivot, in order |
| `Scan.ConsistentTrees` | internal/buntdb/buntdb.go:1686-1700 | the trees of a consistent database are such trees |
| `Size.EstIntSize` | internal/buntdb/buntdb.go:1326-1337 | the number of decimal digits |
| `Size.EstBulkStringSize` | internal/buntdb/buntdb.go:1343-1345 | the length of the encoded bulk string |
| `Size.EstAOFSetSize` | internal/buntdb/buntdb.go:1349-1365 | the length of the encoded Set of a non-expiring item |
| `Size.Save` | internal/buntdb/buntdb.go:233-265 | writes one Set per item in ascending key order |
| `Size.EstimateLoaded` | internal/buntdb/buntdb.go:1019-1025 | the loop adds the estimates of all items |
| `Size.EstimateIsSavedLength` | internal/buntdb/buntdb.go:1019-1025 | after loading a database without deadlines that sum is the byte length Save would write |
| `Bytecode.MakeInstruction` | internal/core/bytecode.go:766-791 | the filled buffer is the opcode followed by its operands, most significant byte first |
| `Bytecode.ReadOperands` | internal/core/bytecode.go:752-763 | the operands decoded in order and the bytes they took |
| `Bytecode.InstructionRoundTrip` | internal/core/bytecode.go:752-791 | writing then reading gives the operands back if and only if each fits its width |
| `Bytecode.PatchKeepsBoundaries` | internal/core/compiler.go:3012-3025 | changing an instruction's operands in place moves no instruction boundary |
| `Bytecode.MapInstructions` | internal/core/bytecode.go:94-130 | every instruction goes through the callback, in order |
| `Bytecode.MappedIs` | internal/core/bytecode.go:94-130 | each instruction is mapped by itself, in its place |
| `Bytecode.MapIdentity` | internal/core/bytecode.go:94-130 | with the identity callback the bytes come back unchanged |
| `Patching.RetargetAll` | internal/core/compiler.go:650-656 | patching the recorded breaks (or continues) of a block changes exactly those operands |
| `Patching.PatchedBody` | internal/core/compiler.go:640-656 | a body compiled with placeholders, breaks then continues patched, is the body with its targets |
| `Patching.AllLeavesAreJumps` | internal/core/compiler.go:657-671 | the recorded positions are jump instructions that do not overlap |
| `Compiler.Compiler.Emit` | internal/core/compiler.go:3027-3050 | the instruction is appended and its position returned |
| `Compiler.Compiler.ChangeOperand` | internal/core/compiler.go:3021-3025 | exactly the two operand bytes change |
| `Compiler.Compiler.PatchPositions` | internal/core/compiler.go:650-656 | every listed jump gets the target |
| `Compiler.Compiler.CompileLogical` | internal/core/compiler.go:2753-2774 | emits the specified code: the jump goes past the right operand |
| `Compiler.Compiler.CompileIfExpr` | internal/core/compiler.go:539-566 | emits the specified code: both jumps patched, nil for a missing alternative |
| `Compiler.Compiler.CompileForExpr` | internal/core/compiler.go:674-779 | emits the specified code of a for expression and leaves the loop stack as it was |
| `Compiler.Compiler.CompileList` | internal/core/compiler.go:1054-1094 | emits the specified code of a list literal with any spreads |
| `Compiler.Compiler.CompileExpr` | internal/core/compiler.go:539-779 | any expression of the fragment appends its code and its constants |
| `Compiler.Compiler.CompileIf` | internal/core/compiler.go:509-538 | emits the specified code, the breaks of both arms recorded in the enclosing loop |
| `Compiler.Compiler.CompileLeave` | internal/core/compiler.go:657-671 | a break or continue is recorded in the innermost loop, and refused outside loops |
| `Compiler.Compiler.CompileFor` | internal/core/compiler.go:568-656 | emits the specified code, its own breaks and continues resolved, the enclosing loop's lists untouched |
| `Compiler.Compiler.CompileBlock` | internal/core/compiler.go:943-964 | appends the code of every statement, fails exactly on a break or continue outside a loop |
| `Compiler.CompileMainChunk` | internal/core/compiler.go:2843-2931 | the bytecode of the chunk, or the loop error exactly when a break or continue is outside a loop, or too many constants |
| `JumpTargets.MainJumpsLand` | internal/core/compiler.go:2843-2931 | every jump of a main chunk under 65536 bytes goes to the start of an instruction of the chunk |
| `JumpTargets.StmtsTidy` | internal/core/compiler.go:568-671 | jumps of a block stay inside it or go to the targets of the innermost loop |
| `JumpTargets.ExprTidy` | internal/core/compiler.go:539-779 | jumps of an expression stay inside it |
| `Opcodes.DoAppend` | internal/core/vm.go:2844-2845 | the append instruction stops the machine |
| `ExprCorrect.ExprRuns` | internal/core/compiler.go:539-779 | for every expression of the fragment, the machine pushes exactly the value of short-circuit evaluation and is at the end of the code if that succeeds and its peak fits on the stack, and stops otherwise |
| `ExprCorrect.IfRuns` | internal/core/compiler.go:539-566 | both arms reach the join with the same stack height, one value pushed |
| `ExprCorrect.EachRuns` | internal/core/compiler.go:674-779 | the length local equals the number of pending body values at every turn, and the machine stops as soon as they do not fit |
| `Literals.ListLiteral` | internal/core/compiler.go:1054-1094 | on the machine a literal is built exactly when its elements succeed, its spreads come last and it fits; otherwise the machine stops and never recovers |
| `Literals.BuiltIff` | internal/core/compiler.go:1054-1094 | a literal has a value if and only if its elements succeed and its spreads come last |
| `StmtCorrect.StmtRuns` | internal/core/compiler.go:509-671 | running a statement leaves the stack alone and ends at its end, at the break target or at the continue target as execution does, or stops the machine exactly when execution fails or does not fit |
| `StmtCorrect.TurnsRun` | internal/core/compiler.go:568-656 | the loop makes the turns of execution; a break leaves it, a continue goes to the next turn |
| `StmtCorrect.StmtsRun` | internal/core/compiler.go:943-964 | the same for blocks |
| `Programs.ProgramRuns` | internal/core/compiler.go:2843-2931 | a chunk that reads no variable without a value is run to its suspend instruction with exactly the values and variables of short-circuit evaluation if that succeeds within 200 slots, locals included, and stops otherwise |
| `Programs.ProgramExact` | internal/core/compiler.go:2843-2931 | the machine stops if and only if evaluation fails or does not fit, and every way to halt has exactly the evaluated values and variables |
| `Programs.WalkerIs` | internal/core/tree_walk_eval.go:3329-3332 | the walker succeeds if and only if short-circuit evaluation does and overlooks no right operand that fails or is not a boolean; the values are the same |
| `Programs.CompiledIs` | internal/core/compiler.go:1054-1094 | compiled code succeeds if and only if short-circuit evaluation does and appends no element after a spread; values and variables are the same |
| `Programs.WalkAgreesIff` | internal/core/tree_walk_eval.go:3329-3332 | walker and compiled code agree on a chunk if and only if short-circuit evaluation fails or overlooks something exactly when it appends something; where compiled code succeeds, if and only if nothing is overlooked |
| `Programs.MachineAgreesIff` | internal/core/compiler.go:2843-2931 | the machine ends with the walker's values and variables, or stops where the walker fails, if and only if short-circuit evaluation fails or overlooks something exactly when it appends something or outgrows the stack |
| `Programs.AllClosedEnds` | internal/core/compiler.go:657-671 | without a break or continue outside loops, execution never leaves a loop that is not there |
| `Programs.SkippedOperandFails` | internal/core/tree_walk_eval.go:3329-3332 | `false and (if nil true)`: the walker fails on the operand that compiled code skips |
| `Programs.RightOperandUnchecked` | internal/core/compiler.go:2753-2774 | `true and nil`: the walker rejects the right operand, compiled code gives nil |
| `Programs.LateElementFaults` | internal/core/vm.go:2844-2845 | a list literal with a plain element after a spread stops the machine, whatever its elements |
| `Programs.AppendIsMissing` | internal/core/tree_walk_eval.go:1422-1457 | `[...[], nil]`: the walker builds the list, the machine stops |
| `Programs.UnboundVariableIsEmpty` | internal/core/vm.go:799-804 | a variable assigned only in a branch not taken: reading it is an error for the walker, and the machine goes on with what an unused slot holds |
| `Programs.LongForFaults` | internal/core/vm.go:17-33 | a for expression over 200 elements or more runs out of stack |
| `Programs.LongLiteralFaults` | internal/core/vm.go:17-33 | so does a list literal of more than 200 plain elements |
| `Scope.EvaluateSees` | internal/core/tree_walk_eval.go:91-98 | the project's own check: an expression that passes it never reads a variable without a value, which would be this error, and forgets only loop variables |
| `Scope.AllSee` | internal/core/tree_walk_eval.go:91-98 | the same for blocks, whichever way they end |
| `Programs.CheckedReadsAreBound` | internal/core/tree_walk_eval.go:91-98 | the same for chunks |
| `Agreement.EvalForgets` | internal/core/tree_walk_eval.go:1705-1750 | walking an expression binds no variable; it only forgets the variables of loops |
| `Agreement.EvalAgrees` | internal/core/tree_walk_eval.go:1505-1750 | walking an expression succeeds if and only if short-circuit evaluation does and overlooks nothing, with the same value, though the walker may have forgotten more variables |
| `Agreement.AllAgree` | internal/core/tree_walk_eval.go:1505-1700 | the same for blocks, breaks and continues included |
| `LazyEval.EvaluateIs` | internal/core/compiler.go:539-779 | what compiled code computes for an expression is short-circuit evaluation, except that it fails if an element is appended after a spread |
| `LazyEval.AllAre` | internal/core/compiler.go:943-964 | the same for blocks |
| `Machine.OneEnd` | internal/core/vm.go:284-303 | a run of the machine ends in one way only |
| `Odometer.ProductAt` | internal/core/iterator.go:1336-1412 | the combination at given sub-iterator positions is the one at their rank in the lexicographic product |
| `Odometer.RankInjective` | internal/core/iterator.go:1336-1412 | no combination has two ranks |
| `Odometer.RankOrders` | internal/core/iterator.go:1336-1412 | the combinations come in lexicographic order, earlier components counting more |
| `Odometer.TurnedRank` | internal/core/iterator.go:1031-1044 | moving the last movable sub-iterator and restarting those after it goes to the next rank |
| `Odometer.MoreIff` | internal/core/iterator.go:1023-1030 | some sub-iterator can move exactly when combinations are left |
| `Odometer.EmptyProduct` | internal/core/iterator.go:1354-1364 | an empty component leaves no combinations |
| `Odometer.ListIterator.HasNext` | internal/core/iterator.go:1354-1371 | true exactly when a combination is left |
| `Odometer.ListIterator.Next` | internal/core/iterator.go:776-782 | gives the combinations of the product in order under keys 0, 1, …, agrees with HasNext, gives nothing with an empty component or none |
| `Odometer.ListIterator.Advance` | internal/core/iterator.go:1385-1404 | one turn of the odometer is the next combination |
| `Odometer.SequenceIterator.constructor` | internal/core/iterator.go:980-1020 | primes all sub-iterators but the last, or is empty |
| `Odometer.SequenceIterator.HasNext` | internal/core/iterator.go:1023-1030 | true exactly when a combination is left |
| `Odometer.SequenceIterator.Next` | internal/core/iterator.go:1031-1044 | gives the combinations in order; no elements give the empty string once |
| `Odometer.SequenceIterator.Value` | internal/core/iterator.go:1048-1054 | the concatenation of the current combination |
| `Filter.InOrderIff` | internal/core/iterator.go:69-222 | the accepted pairs come in order, one per Next, in every interleaving if and only if no accepted key is nil |
| `Filter.GivenInOrder` | internal/core/iterator.go:69-222 | with non-nil keys every interleaving gives the accepted pairs in order |
| `Filter.NilKeyLost` | internal/core/iterator.go:78-98 | a HasNext before an accepted pair with a nil key loses the pair |
| `Filter.FilteredIterator.HasNext` | internal/core/iterator.go:78-98 | answers whether an accepted pair is left and does not change the current pair |
| `Filter.FilteredIterator.Next` | internal/core/iterator.go:100-110 | moves to the next accepted pair |
| `Filter.Drive` | internal/core/iterator.go:69-222 | a client making any calls sees exactly the specified pairs |
| `Filter.MatchingIs` | internal/core/iterator.go:78-98 | each pair is accepted or left out by itself, and the order stays |
| `Debugger.NextStops` | internal/core/debug.go:487-494 | from a stop at depth d, next stops at exactly the first later instruction of depth at most d |
| `Debugger.StepOutStops` | internal/core/debug.go:503-510 | step-out stops at exactly the first later instruction of depth below d |
| `Debugger.StepInStops` | internal/core/debug.go:495-502 | step-in stops at the next instruction |
| `Debugger.StopsAtInterrupts` | internal/core/debug.go:559-604 | with nothing requested, the program stops at exactly the first breakpoint or, if exception breakpoints are on, error |
| `Debugger.RequestOnlyAdvances` | internal/core/debug.go:559-604 | a request never delays a stop, and is its reason exactly where there is neither a breakpoint nor an error to stop at |
| `Debugger.StepsMeetBreakpoints` | internal/core/debug.go:559-584 | with breakpoints on the way, next and step-out stop at the first breakpoint or the first instruction shallow enough, whichever comes first |
| `Debugger.PauseStops` | internal/core/debug.go:568-571 | a pause or step-in stops at the next instruction, errors that are not to stop it apart |
| `Debugger.ContinueNeverStopsIff` | internal/core/debug.go:480-486 | continue never stops if and only if no step or pause request is left over |
| `Debugger.LeftOverNext` | internal/core/debug.go:560-584 | a next cut short by a breakpoint makes the following continue stop like a next |
| `Debugger.FirstOfIs` | internal/core/debug.go:572-583 | the reference notion of "first instruction such that" |
| `Debugger.Debugger.BeforeInstruction` | internal/core/debug.go:534-604 | stop reason and new state before an instruction |
| `Debugger.Debugger.PauseProgram` | internal/core/debug.go:474-479 | requests a stop, unless the program is stopped |
| `Debugger.Debugger.RunUntilStop` | internal/core/debug.go:534-604 | running instructions stops at the specified one for the specified reason, and only then |
| `Debugger.Debugger.Continue` | internal/core/debug.go:480-486 | resumes without clearing the request |
| `Debugger.Debugger.StepOver` | internal/core/debug.go:487-494 | requests a stop at the current depth |
| `Debugger.Debugger.StepInto` | internal/core/debug.go:495-502 | requests a stop at the next instruction |
| `Debugger.Debugger.StepOutOf` | internal/core/debug.go:503-510 | requests a stop below the current depth |
| `History.ValueHistory.AddChange` | internal/core/history.go:112-120 | the change joins the history, the oldest is folded when the maximum is reached, so the list stays shorter; maximum 1 fails at the first change |
| `History.ValueHistory.ForgetChangesBeforeIndex` | internal/core/history.go:203-223 | folding changes into the snapshot loses none of them |
| `History.ValueHistory.ForgetChangesBeforeDate` | internal/core/history.go:178-189 | folds exactly the changes before the date, nothing if all are before it |
| `History.ValueHistory.ForgetLast` | internal/core/history.go:191-201 | takes back the last change that is not folded |
| `History.ValueHistory.LastValue` | internal/core/history.go:145-161 | the fold of all changes over the initial value, after every run |
| `History.ValueHistory.ValueAt` | internal/core/history.go:122-143 | the fold of the changes up to d for every d at or after the last folded change, and the oldest known value before it |
| `History.ValueHistory.IndexAtOrBeforeMoment` | internal/core/history.go:238-250 | splits the history at the moment |
| `History.ValueHistory.IndexAtOrAfterMoment` | internal/core/history.go:225-236 | the first change at or after the moment |
| `Teardown.InvariantOnEveryRun` | internal/core/context.go:1349-1457 | in every interleaving one thread tears down, one cancels, and the record of tasks is right |
| `Teardown.CancelAtMostOnce` | internal/core/context.go:1349-1374 | the two cancel methods call cancel at most once in total |
| `Teardown.TasksInOrder` | internal/core/context.go:1427-1455 | the started tasks are a prefix of the listed ones: registration order, each at most once |
| `Teardown.StartedGrows` | internal/core/context.go:1427-1455 | tasks are listed once and a started task is never taken back |
| `Teardown.TerminalForever` | internal/core/context.go:418-424 | a final status is only ever replaced by a final status |
| `Teardown.GracefulMeansAllRan` | internal/core/context.go:1396-1404 | a final status without cancellation means every task present at the start ran, and says whether one failed |
| `Teardown.SettledOnEveryRun` | internal/core/context.go:1349-1457 | on every run a finished thread has done its part, the thread that tore down goes on to the done flag, and whoever set the flag is on record |
| `Teardown.FinishedMeans` | internal/core/context.go:1349-1391 | a graceful cancel that returned found the context done or its teardown begun; an ungraceful one leaves it done; so does the done goroutine, after cancellation |
| `Teardown.AllFinishedMeans` | internal/core/context.go:1349-1374 | once a cancel method was called and every thread has finished, the context is done, cancel was called exactly once unless the done goroutine set the flag, and a teardown has a final status |
| `Teardown.GracefulRuns` | internal/core/context.go:1349-1457 | from any state with nothing cancelled, an undisturbed graceful cancel runs every registered task once, in order, gives the status that says whether one failed, and calls cancel |
| `Teardown.UngracefulRuns` | internal/core/context.go:1363-1374 | an undisturbed ungraceful cancel calls cancel, starts no task and marks a teardown under way as cancelled |
| `Teardown.DoneRuns` | internal/core/context.go:417-424 | the done goroutine sets the flag and marks a teardown under way as cancelled |
| `Teardown.NothingStartsAfterCancel` | internal/core/context.go:1427-1431 | once the context is cancelled no further task starts |

## Left out

- B-tree internals: a tree is an ordered set under the supplied comparison.
- R-tree indexes, Nearby/Intersects, the JSON and rectangle comparisons, and the glob matcher: an index pattern is an arbitrary deterministic predicate on keys.
- The clock inside one load: the loader reads it once per command, the model once per load; relative expirations ("ex") are taken from the file's modification time without the saturation of time arithmetic.
- Count lines beyond the range of a machine integer, which overflow in the reader.
- Sync policies, tickers, automatic shrinking, file errors in the compaction other than giving up, OnExpired callbacks.
- Locks are steps of the state machines: blocking, deadlock and fairness are not modelled.
- A commit whose truncation fails after a failed write: the program panics.
- Switch and match, pipelines, functions, global variables, structs, XML, imports, walk loops, key and value patterns in for loops, chunked loops.
- Loops run over lists only; other iterables and streams are not modelled.
- Symbols are resolved: variables are numbers with distinct slots below the number of locals.
- Integers do not wrap around; the count of a for expression cannot get that far.
- The source map, tracing and the last-opcode field of the compiler, which only functions read.
- Chunks that read a variable without a value: their behaviour on the machine is stated by one example only, and making a list of what an unused slot holds, which panics (`vm.go` 1079 and 1100), succeeds in the model.
- Union and optional pattern iterators, range and other base iterators: components are finite sequences that do not change.
- Mutations that fail to apply and snapshots that fail to instantiate: applying a change is a total function.
- Frame identifiers, scopes and stack traces of the debugger, and its secondary threads.
- The done goroutine after the status is settled: limiters, microtasks, transaction rollback.
