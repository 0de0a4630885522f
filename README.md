# CQED core in Dafny

This project models the core of an early snapshot of CQED, a small bytecode interpreter in the clox style written in C.
- A NUL-terminated source text is scanned into tokens.
- The single-pass compiler front end pulls tokens and reports errors. It emits the closing `OP_RETURN` into a chunk of bytecode.
- The virtual machine runs that chunk on a value stack.
- Alongside these sit the string-keyed open-addressing hash table with tombstones, the growable byte and value arrays, the tagged value type and the list of heap-allocated string objects.

There is one Dafny module per C file:

| module | file | C source |
|---|---|---|
| `Options` | `option.dfy` | the `Option` type used for lookups |
| `Memory` | `memory.dfy` | `src/memory.h` (`GROW_CAPACITY`) |
| `Values` | `values.dfy` | `src/value.h` (tagged values) |
| `ValueArrays` | `value_array.dfy` | `src/value.c` (constant pool) |
| `Chunks` | `chunk.dfy` | `src/chunk.c` (code bytes, lines, constants) |
| `Objects` | `object.dfy` | `src/object.c` (string objects, `vm->objects`) |
| `Tables` | `table.dfy` | `src/table.c` (hash table) |
| `Scanner` | `scanner.dfy` | `src/scanner.c` (lexer) |
| `Compiler` | `compiler.dfy` | `src/compiler.c` (parser, error reporting, emission) |
| `Vm` | `vm.dfy` | `src/vm.c` (stack machine) |

Code that changes state step by step is written as classes with the C structs' fields:
- `Table`, `Chunk`, `ValueArray`, `Heap`, `Scanner`, `Parser` and `VM`;
- their methods carry `modifies` clauses and loops with invariants.

Each such method is proved against a pure specification function of the old state. Examples:
- `Scanner.ScanToken` agrees with `Scan`;
- `Parser.Compile` agrees with `CompileState`;
- `VM.Run` agrees with `Exec`;
- `Table.Set` turns `Contents()` into `old(Contents())[key := value]`.

The properties the source promises are lemmas about those functions.

The hash table's central invariant is `4 * count <= 3 * capacity`, where `count` includes tombstones. It guarantees a truly empty slot, so every probe loop ends. `Table.Valid` holds it together with `Structured`:
- no key appears twice;
- every live key is reachable from its home slot through non-empty slots.

Every table operation preserves both.

Two quirks of `src/scanner.c` are modelled literally:
- `is_alpha` accepts every character from `'Z'` up and rejects `'A'`–`'Y'` (`IsAlphaIsAtLeastZ`), so `{` and `}` scan as identifiers (`ScanNeverBrace`).
- A `//` comment falls through to `return`, so the newline that ends it is scanned as an unexpected character (`CommentNewlineIsUnexpected`).

Where the C code reads or writes memory it does not own, the VM model stops with an explicit `Undefined(fault)` instead of guessing. The four cases are:
- popping an empty stack;
- pushing onto a full one;
- reading a byte past the code written;
- reading a constant past the pool.

Since `compile` emits only `OP_RETURN` and `interpret` starts with whatever is on the stack, interpreting any source that compiles on a fresh VM ends in a stack underflow (`VM.Interpret`, `LoneReturn`).

## Model

| member | source | states |
|---|---|---|
| `Memory.GrowCapacity` | src/memory.h:7-8 | the new capacity is 8 below 8 and doubles from 8 on; it is always larger than the old one |
| `Values.AsNumber` | src/value.h:22-27 | `AS_NUMBER` of a number gives its payload back; of nil it gives the zero `NIL_VAL` stores |
| `Values.ConstructorsRoundTrip` | src/value.h:21-27 | each constructor sets its own tag, and the matching accessor returns what was packed |
| `Values.TagsPartition` | src/value.h:6-32 | exactly one of `IS_BOOL`, `IS_NIL`, `IS_NUMBER` holds of any value |
| `ValueArrays.ValueArray.Init` | src/value.c:12-16 | the array starts with no slots and no values |
| `ValueArrays.ValueArray.Free` | src/value.c:18-21 | after freeing, the array is empty again with capacity 0 |
| `ValueArrays.ValueArray.Write` | src/value.c:23-30 | the value is appended after the old contents; capacity grows by `GROW_CAPACITY` exactly when the array was full |
| `ValueArrays.ValueArray.Grow` | src/value.c:32-36 | capacity becomes `GROW_CAPACITY(old)`, the count stays, every old slot keeps its value |
| `Chunks.Chunk.Init` | src/chunk.c:7-13 | a new chunk has no code, no lines and an empty constant pool |
| `Chunks.Chunk.Free` | src/chunk.c:15-21 | freeing empties code, lines and constants and resets count and capacity |
| `Chunks.Chunk.Write` | src/chunk.c:23-31 | the byte and its line are appended together; earlier bytes, lines and the pool are unchanged; capacity grows only when full |
| `Chunks.Chunk.Grow` | src/chunk.c:33-38 | both buffers grow to `GROW_CAPACITY`, keeping every old slot, and the pool is untouched |
| `Chunks.Chunk.AddConstant` | src/chunk.c:40-43 | the value is appended to the pool and its index returned; the code is unchanged |
| `Objects.ObjString.constructor` | src/object.c:12-19 | a new object has the string tag and links to the given next object |
| `Objects.Heap.AllocateString` | src/object.c:12-19 | the new string becomes the head of the object list, with the old head as its `next` |
| `Objects.Heap.TakeString` | src/object.c:21-23 | the string adopts the caller's buffer and is prepended to the object list |
| `Objects.Heap.CopyString` | src/object.c:25-30 | the string owns a fresh buffer holding the `length` characters followed by a NUL, and is prepended to the object list |
| `Tables.Home` | src/table.c:91 | the home slot `hash % capacity` lies inside the table |
| `Tables.ProbeStep` | src/table.c:115 | stepping `(index + 1) % capacity` moves to the next slot of the wrapping probe sequence |
| `Tables.CountSplit` | src/table.c:43-48 | the slots in use are the live slots plus the tombstones |
| `Tables.MapOfUpdate` | src/table.c:50-51 | writing a key into its own slot or a keyless slot maps that key to the new value and changes no other key |
| `Tables.MapOfRemove` | src/table.c:61-62 | turning a live slot into a tombstone removes exactly that key |
| `Tables.MapSizeIsLiveCount` | src/table.c:82 | the number of keys the table holds equals the number of live slots |
| `Tables.CountIsLivePlusTombstones` | src/table.c:43-48 | `count` equals the number of keys held plus the number of tombstones |
| `Tables.ProbeCoversAll` | src/table.c:93-116 | a probe that passes `capacity` slots without a truly empty one has seen a table with no empty slot |
| `Tables.ProbeFindsEmpty` | src/table.c:93-116 | while fewer slots are in use than exist, every probe sequence contains a truly empty slot |
| `Tables.LoadLeavesEmptySlot` | src/table.c:36-39 | the load bound `4 * count <= 3 * capacity` leaves `count < capacity` |
| `Tables.StopAtEmpty` | src/table.c:96-101 | a key reachable from its home slot lies before the first truly empty slot of its probe |
| `Tables.ProbeMissMeansAbsent` | src/table.c:96-101 | reaching a truly empty slot without meeting the key proves the key is absent |
| `Tables.ProbeMissMeansAbsentIf` | src/table.c:96-101 | the same conclusion for a key that is reachable if it is present |
| `Tables.SetKeepsStructure` | src/table.c:41-51 | writing a key into the slot `find_entry` picks keeps keys unique and reachable |
| `Tables.DeleteKeepsStructure` | src/table.c:58-63 | replacing a slot by a tombstone keeps every other key reachable |
| `Tables.AllEmptyTable` | src/table.c:67-71 | a table of truly empty slots is well structured, uses no slot and holds no key |
| `Tables.RehashSkip` | src/table.c:77 | skipping a keyless slot during the rehash adds no key and no live entry |
| `Tables.RehashStep` | src/table.c:74-83 | inserting one live entry into the new array keeps it structured and free of tombstones, and its contents track the entries moved so far |
| `Tables.FindStringStep` | src/table.c:122-138 | moving past a slot that neither stops nor matches keeps the probe inside the table, and no slot seen so far matches |
| `Tables.FindStringMiss` | src/table.c:126-128 | stopping at a truly empty slot proves no key of the table matches the characters, length and hash |
| `Tables.SetSlot` | src/table.c:41-51 | writing into the chosen slot: the key was new exactly when the slot had no key; the map gains the pair; `count` rises only for a truly empty slot; reusing a tombstone removes one |
| `Tables.Table.Init` | src/table.c:14-18 | a new table holds nothing, with count and capacity 0 |
| `Tables.Table.Free` | src/table.c:20-23 | freeing leaves an empty table with count and capacity 0 |
| `Tables.Table.Get` | src/table.c:25-33 | returns the key's value when the key is present and nothing otherwise, including when there is no entries array |
| `Tables.Table.Set` | src/table.c:35-53 | maps the key to the value and changes no other key; answers true exactly when the key was absent; grows to `GROW_CAPACITY` and drops every tombstone when `count + 1` exceeds three quarters of capacity; otherwise `count` rises by one exactly when a new key lands in a truly empty slot; the load invariant holds after |
| `Tables.Table.Put` | src/table.c:41-52 | the write after the load check: same contents and answer as `Set`, entries array and capacity unchanged; `count` rises by one exactly when a new key uses no tombstone; a tombstone is used up only by a new key |
| `Tables.Table.Delete` | src/table.c:55-64 | answers true exactly when the key was present, removes only that key, leaves `count` unchanged, and adds exactly one tombstone on success and changes no slot otherwise |
| `Tables.Table.AdjustCapacity` | src/table.c:66-88 | the table gets a fresh array of the new capacity with the same key/value pairs, no tombstones, and `count` equal to the number of keys |
| `Tables.Table.Rehash` | src/table.c:67-83 | the new array holds exactly the live pairs of the old one, no tombstones, and as many used slots as the old one had live slots |
| `Tables.Table.FindEntry` | src/table.c:90-117 | the slot returned holds the key or no key; the probe from the home slot reaches it through non-empty slots; a keyless answer means the key is absent; a tombstone is returned only when an empty slot exists, and it is the first tombstone on the probe from the home slot |
| `Tables.Table.FindString` | src/table.c:119-140 | returns a key of the table whose length, hash and characters match, or null exactly when no key matches |
| `Scanner.IsAlphaIsAtLeastZ` | src/scanner.c:232-236 | `is_alpha` as written holds exactly of the characters from `'Z'` up |
| `Scanner.IdentEnd` | src/scanner.c:80 | the identifier loop stops inside the source at a character that is not alphanumeric |
| `Scanner.IdentEndIsLongestRun` | src/scanner.c:80 | every character it passes is alphanumeric |
| `Scanner.DigitsEnd` | src/scanner.c:134 | the digit loop stops at a non-digit inside the source |
| `Scanner.DigitsEndIsLongestRun` | src/scanner.c:134 | every character it passes is a digit |
| `Scanner.NumberEnd` | src/scanner.c:133-144 | a number ends inside the source at a non-digit |
| `Scanner.NumberEndHasNumberShape` | src/scanner.c:133-144 | a number is a digit run, and a `.` plus a second digit run only when a digit follows the `.` |
| `Scanner.StringEnd` | src/scanner.c:147 | the string loop stops at the terminator or at the NUL |
| `Scanner.StringEndIsFirstQuote` | src/scanner.c:147 | it stops at the first terminator or NUL |
| `Scanner.CommentEnd` | src/scanner.c:173 | a comment ends at a newline or the NUL |
| `Scanner.CommentEndIsFirstNewline` | src/scanner.c:173 | it ends at the first newline |
| `Scanner.SkipWs` | src/scanner.c:159-182 | skipping never moves backwards and never lowers the line counter |
| `Scanner.SkipWsStops` | src/scanner.c:159-182 | the line counter rises by the newlines skipped; skipping stops at no blank and at no `//`; it stops at a newline only right after a comment |
| `Scanner.CheckKeywordMatchesWhole` | src/scanner.c:120-131 | `check_keyword` answers the keyword exactly when the lexeme is its first `start` characters followed by `rest`, and Identifier otherwise |
| `Scanner.TrieLeafOf` | src/scanner.c:85-118 | the switch on the first one or two characters picks a keyword candidate whose prefix lies inside the lexeme |
| `Scanner.IdentifierType` | src/scanner.c:85-118 | `identifier_type` never answers EOF or ERROR |
| `Scanner.TrieAgreesOnA` | src/scanner.c:87 | for lexemes starting with `a`, the switch agrees with the keyword table |
| `Scanner.TrieAgreesOnC` | src/scanner.c:88 | the same for `c` |
| `Scanner.TrieAgreesOnE` | src/scanner.c:89 | the same for `e` |
| `Scanner.TrieAgreesOnF` | src/scanner.c:90-98 | the same for `f`, including the one-letter lexeme `f` |
| `Scanner.TrieAgreesOnI` | src/scanner.c:99 | the same for `i` |
| `Scanner.TrieAgreesOnN` | src/scanner.c:100 | the same for `n` |
| `Scanner.TrieAgreesOnO` | src/scanner.c:101 | the same for `o` |
| `Scanner.TrieAgreesOnP` | src/scanner.c:102 | the same for `p` |
| `Scanner.TrieAgreesOnR` | src/scanner.c:103 | the same for `r` |
| `Scanner.TrieAgreesOnS` | src/scanner.c:104 | the same for `s` |
| `Scanner.TrieAgreesOnT` | src/scanner.c:105-112 | the same for `t`, including the one-letter lexeme `t` |
| `Scanner.TrieAgreesOnV` | src/scanner.c:113 | the same for `v` |
| `Scanner.TrieAgreesOnW` | src/scanner.c:114 | the same for `w` |
| `Scanner.TrieAgreesElsewhere` | src/scanner.c:115-117 | any other first character gives Identifier, as the table does |
| `Scanner.IdentifierTypeIsKeywordTable` | src/scanner.c:85-131 | `identifier_type` equals the plain keyword table on every lexeme |
| `Scanner.Scan` | src/scanner.c:39-77 | one scan ends inside the source; EOF exactly at the NUL, with an empty lexeme; every other token is non-empty; a non-error token's lexeme is the span scanned; an error token carries a message; the token's line is the scanner's line |
| `Scanner.ScanFrom` | src/scanner.c:42-76 | the same guarantees from the token's first character |
| `Scanner.IdentifierAt` | src/scanner.c:79-83 | an identifier token is never EOF or ERROR, spans what was scanned, and keeps the line |
| `Scanner.NumberAt` | src/scanner.c:133-144 | a number token spans what was scanned and keeps the line |
| `Scanner.StringAt` | src/scanner.c:146-157 | a string scan yields a string token spanning both quotes, or the "Unterminated string" error at the current line |
| `Scanner.IdentifierAtShape` | src/scanner.c:79-83 | the identifier is the longest alphanumeric run, and its kind is the keyword table's verdict on it |
| `Scanner.NumberAtShape` | src/scanner.c:133-144 | the scanned number has the digit-run shape |
| `Scanner.StringAtShape` | src/scanner.c:146-157 | the string body holds no terminator or NUL; a literal ends on the terminator; the line counter rises by the newlines inside; an unterminated string stops at the NUL |
| `Scanner.ScanIdentifier` | src/scanner.c:46-47 | after the skip, an alphabetic character starts an identifier scan |
| `Scanner.ScanNumber` | src/scanner.c:48 | after the skip, a digit starts a number scan |
| `Scanner.ScanString` | src/scanner.c:72-73 | after the skip, either quote starts a string scan with that quote as terminator |
| `Scanner.ScanOperator` | src/scanner.c:63-70 | `!`, `=`, `>` and `<` make their two-character token when `=` follows and the one-character token otherwise |
| `Scanner.ScanUnexpected` | src/scanner.c:46-76 | a character after the skip that is not NUL, not accepted by `is_alpha` or `is_digit`, and named by no case of the switch gives the "Unexpected character" error on the skip's line and consumes exactly that character |
| `Scanner.UpperCaseIsUnexpected` | src/scanner.c:232-236 | because `is_alpha` rejects `'A'`–`'Y'`, the source `Fo` scans to "Unexpected character" at the `F` |
| `Scanner.ScanEofIsFixpoint` | src/scanner.c:44 | at the end, scanning again yields the same empty EOF token |
| `Scanner.ScanProgress` | src/scanner.c:39-77 | every token other than EOF consumes at least one character |
| `Scanner.ScanNeverBrace` | src/scanner.c:47-54 | no scan yields a brace token, because `is_alpha` claims `{` and `}` first |
| `Scanner.CommentNewlineIsUnexpected` | src/scanner.c:171-179 | the newline ending a `//` comment is scanned as an "Unexpected character" error |
| `Scanner.BlankSourceScansToEof` | src/scanner.c:159-169 | a source of blanks scans to EOF at the NUL, counting every newline |
| `Scanner.Scanner.Init` | src/scanner.c:33-37 | the scanner starts at the first character on line 1 |
| `Scanner.Scanner.PeekNext` | src/scanner.c:192-195 | NUL at the end, the character after the current one otherwise |
| `Scanner.Scanner.Advance` | src/scanner.c:197-200 | returns the current character and moves one step |
| `Scanner.Scanner.Match` | src/scanner.c:202-208 | consumes the expected character exactly when it is next and not the end |
| `Scanner.Scanner.MakeToken` | src/scanner.c:210-217 | the token spans from `start` to `current` on the current line |
| `Scanner.Scanner.ErrorToken` | src/scanner.c:219-226 | an error token carries the message and the current line |
| `Scanner.Scanner.SkipWhitespaceAndComments` | src/scanner.c:159-182 | the cursor and line end where `SkipWs` says |
| `Scanner.Scanner.Identifier` | src/scanner.c:79-83 | the token and cursor are those of `IdentifierAt` |
| `Scanner.Scanner.Number` | src/scanner.c:133-144 | the token and cursor are those of `NumberAt` |
| `Scanner.Scanner.String` | src/scanner.c:146-157 | the token, cursor and line are those of `StringAt` |
| `Scanner.Scanner.ScanToken` | src/scanner.c:39-77 | the token, `start`, `current` and line are those of `Scan` from the old cursor |
| `Scanner.Scanner.TokenHere` | src/scanner.c:44-76 | the dispatch on the first character agrees with `ScanFrom` |
| `Compiler.DigitChar` | src/compiler.c:100 | a decimal digit prints as a character `'0'`–`'9'` |
| `Compiler.NatToString` | src/compiler.c:100 | `%d` of a line number is a non-empty string of digits |
| `Compiler.NatToStringRoundTrip` | src/compiler.c:100 | reading those digits back gives the number, with no leading zero |
| `Compiler.ReportAt` | src/compiler.c:100-110 | a report names the token's line and the message; it says "at end" exactly for EOF, no place exactly for an error token, and otherwise quotes the lexeme's text |
| `Compiler.RenderShape` | src/compiler.c:100-110 | the printed report starts with `[line `, the line in digits that read back as the line, then `] Error`, and ends with the message and a newline |
| `Compiler.Pump` | src/compiler.c:54-59 | the advance loop ends on a token that is not an error, and everything it skipped is an error token with a message |
| `Compiler.PumpStep` | src/compiler.c:54-59 | one turn of the loop: a non-error token ends it; an error token is collected and the loop goes on |
| `Compiler.PumpStopsAtScan` | src/compiler.c:54-59 | the token the loop stops on lies in the source; with no error on the way it is the first scan |
| `Compiler.PumpAtEof` | src/compiler.c:54-59 | once the loop has stopped at EOF, advancing again gives EOF with no error |
| `Compiler.AdvanceLoopIsPump` | src/compiler.c:54-59 | the loop's effect on the parser: the current token, each skipped error reported unless panicking, both flags set once an error is seen |
| `Compiler.AdvanceStateIsPump` | src/compiler.c:51-60 | `advance` also moves `current` into `previous`, and never leaves an error token current |
| `Compiler.PanicSilences` | src/compiler.c:96-98 | in panic mode no report is added and `had_error` does not change |
| `Compiler.CompileStateMeaning` | src/compiler.c:34-49 | `compile` appends exactly `CompileDiagnostics`, fails exactly when that is non-empty, ends panicking exactly when it failed, and leaves the first real token current |
| `Compiler.CompileSucceedsIffFirstTokenIsEof` | src/compiler.c:41-48 | compilation succeeds exactly when the first token is EOF, with at most one report |
| `Compiler.BlankSourceCompiles` | src/compiler.c:41-48 | a source of blanks compiles without a report |
| `Compiler.LeadingTokenIsReported` | src/compiler.c:45 | a first real token is reported once as "Expected end of expression" at that lexeme |
| `Compiler.ScanErrorIsReported` | src/compiler.c:54-59 | a first scan error is reported once with the scanner's message and no place |
| `Compiler.Parser.constructor` | src/compiler.c:18-27 | the global parser starts zeroed: both tokens zero, both flags false, no scanner, chunk or report |
| `Compiler.Parser.ErrorAt` | src/compiler.c:96-112 | the parser's new state is `ErrorAtState` of the old one |
| `Compiler.Parser.ErrorAtCurrent` | src/compiler.c:92-94 | the error is reported at the current token |
| `Compiler.Parser.ErrorAtPrevious` | src/compiler.c:88-90 | the error is reported at the previous token |
| `Compiler.Parser.Advance` | src/compiler.c:51-60 | the parser's new state is `AdvanceState` of the old one, and the current token lies in the source |
| `Compiler.Parser.Consume` | src/compiler.c:62-69 | advances when the current token has the expected kind, reports the message at it otherwise |
| `Compiler.Parser.EmitByte` | src/compiler.c:75-77 | appends the byte to the chunk under the previous token's line, leaving the pool alone |
| `Compiler.Parser.EmitBytes` | src/compiler.c:79-82 | appends both bytes in order, each under the previous token's line |
| `Compiler.Parser.EmitReturn` | src/compiler.c:84-86 | appends `OP_RETURN` |
| `Compiler.Parser.EndCompiler` | src/compiler.c:71-73 | appends `OP_RETURN` |
| `Compiler.Parser.Begin` | src/compiler.c:35-39 | a fresh scanner over the source, the chunk installed, both flags cleared |
| `Compiler.Parser.Parse` | src/compiler.c:41-45 | the parser ends in `CompileState` of the reset state |
| `Compiler.Parser.Compile` | src/compiler.c:34-49 | the parser ends in `CompileState`; the result is `!had_error`; the chunk gains exactly `OP_RETURN` under the previous token's line and no constant |
| `Vm.StepAt` | src/vm.c:53-96 | one turn of the loop moves `ip` forward by the opcode's width, inside the code; it pops and pushes the table's numbers of values, leaving the slots below alone; only `OP_RETURN` leaves; code overrun and stack underflow happen exactly in their conditions; the stack never outgrows its room |
| `Vm.StepConstant` | src/vm.c:78-83 | `OP_CONSTANT` pushes the constant the next byte names and advances two bytes |
| `Vm.StepBinary` | src/vm.c:56-61 | a binary opcode pops the right operand, then the left one below it, and pushes `left op right` in their place |
| `Vm.StepNegate` | src/vm.c:88-90 | `OP_NEGATE` replaces the top value by its negation |
| `Vm.StepReturn` | src/vm.c:91-95 | `OP_RETURN` pops the top value and leaves the loop with it |
| `Vm.StepUnknown` | src/vm.c:77-96 | a byte with no case is skipped by one byte and nothing else changes |
| `Vm.ExecReturnsOnlyAtReturn` | src/vm.c:63-97 | a run that returns has an `OP_RETURN` at or after its start |
| `Vm.ExecSkipsUnknown` | src/vm.c:63-97 | a stretch of bytes with no case is passed over with the stack untouched |
| `Vm.ExecStaysInRoom` | src/vm.c:24-27 | a run that starts within the stack's room and returns leaves fewer values than the room |
| `Vm.LoneReturn` | src/vm.c:91-95 | the lone `OP_RETURN` that compile emits returns the top value, or underflows on an empty stack |
| `Vm.SubtractionOrder` | src/vm.c:56-61 | pushing `x`, pushing `y` and subtracting returns `x - y`: the first operand pushed is the left one |
| `Vm.VM.Init` | src/vm.c:12-14 | a new VM has an empty stack |
| `Vm.VM.ResetStack` | src/vm.c:16-18 | the stack becomes empty |
| `Vm.VM.Push` | src/vm.c:24-27 | the value is added on top and the stack top rises by one |
| `Vm.VM.Pop` | src/vm.c:29-32 | the top value is removed and returned, and the stack top drops by one |
| `Vm.VM.PushThenPop` | src/vm.c:24-32 | push then pop returns the pushed value and restores the stack and its top |
| `Vm.VM.ConstantOp` | src/vm.c:78-83 | the `OP_CONSTANT` case does what `StepAt` says |
| `Vm.VM.BinaryOp` | src/vm.c:56-61 | the binary case does what `StepAt` says |
| `Vm.VM.NegateOp` | src/vm.c:88-90 | the `OP_NEGATE` case does what `StepAt` says |
| `Vm.VM.ReturnOp` | src/vm.c:91-95 | the `OP_RETURN` case does what `StepAt` says and leaves the rest of the stack |
| `Vm.VM.Dispatch` | src/vm.c:76-96 | one `READ_BYTE` and switch does what `StepAt` says |
| `Vm.VM.Run` | src/vm.c:52-102 | the loop ends as `Exec` says, with the stack left as `Exec` says |
| `Vm.VM.CompileFresh` | src/vm.c:35-41 | the fresh chunk holds only `OP_RETURN` and no constant; the answer says whether compile reported nothing |
| `Vm.VM.RunChunk` | src/vm.c:43-48 | running the installed chunk from its first byte ends as `Exec` says |
| `Vm.VM.Interpret` | src/vm.c:34-50 | compile errors are returned exactly when compile reports, and then nothing runs; otherwise the returned top value is popped, or an empty stack underflows; a runtime error is never returned |

## Left out

- `src/debug.c`, `src/debug.h` and the `DEBUG_TRACE_EXECUTION` block of `src/vm.c` only print a disassembly and a stack trace.
- `src/main.c` is a demo that does not match the current interfaces.
- `src/memory.c` is not part of this model. Allocation always succeeds, freed buffers become empty arrays, and `free_objects` is not modelled.
- Output is not modelled as text:
  - `print_value`, `print_obj` and the `printf` calls in `run`. The value `OP_RETURN` prints is the `value` of `Halt.Returned`.
  - The `fprintf` calls of `error_at` are a list of `Report`s on the parser. `Compiler.Render` gives their text.
- Numbers are IEEE doubles in C. Here they are the uninterpreted term algebra `Values.Number`, so `OP_ADD` builds `Add(a, b)` and nothing is evaluated.
- `free_vm` has an empty body, so it is not modelled.
- `common.h` and its `STACK_MAX` are not part of this model. `VM.Init` takes the stack size as a parameter.
- `scanner.h` is not part of this model. Token kinds are the `TOKEN_*` names that `scanner.c` uses.
- `src/chunk.h` declares only `OP_RETURN`. The opcodes `vm.c` uses are numbered here CONSTANT, ADD, SUBTRACT, MULTIPLY, DIVIDE, NEGATE, RETURN = 0..6. Any larger byte has no case.
- Undefined behaviour in `run` becomes `Undefined(fault)`. This covers an empty-stack pop, a full-stack push, reading past the code and reading past the constants. The C code checks none of these.
- C `int` widths are not modelled. `count`, `capacity`, line numbers and lengths are unbounded naturals.
- Characters are Dafny `char`s, not signed C `char`s. In C, a byte above 127 compares below `'Z'`, so `is_alpha` rejects it; the model accepts it.
- `object.c` never sets an `ObjString`'s `hash`, so the model leaves it as an arbitrary constant of the object. The table uses it as given.
- `find_entry` compares keys by identity. With no interning in this version, two equal strings are two keys.
- `Tables.Table.Rehash` counts live entries in a local and then stores that count into `count`. `adjust_capacity` increments `table->count` in the loop instead; the final value is the same.
- `Tables.Table.Put`, `Compiler.Parser.Begin`, `Compiler.Parser.Parse`, `Scanner.Scanner.TokenHere`, `Vm.VM.CompileFresh`, `Vm.VM.RunChunk` and the `*Op` methods of `Vm.VM` are sections of one C function given their own contracts. They are not separate C functions.
- `Scanner.CheckKeyword` has no `ensures` of its own. Its contract is the lemma `CheckKeywordMatchesWhole`.
- `Tables.Table.Set`: after a grow, it states only that tombstones are gone and the contents are right, not the exact `count`. `AdjustCapacity` states that `count` equals the number of keys, and `Put` the exact change.
