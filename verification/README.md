# Gix verification model

Gix is a compiler with its own stores on disk. This project models the parts of it whose
correctness is an argument rather than a reading, and proves that argument in Dafny:

- **Hash table** (`khashl.dfy`): open addressing with an in-place kick-out rehash and backward-shift
  deletion. Every sequence of operations behaves as a finite map. The home slot of a key is any function
  into the table, and the Fibonacci hash is shown to be one.
- **Structured IR to basic blocks** (`codegen.dfy`, `codegen_semantics.dfy`, `codegen_wellformed.dfy`): the
  builder as a growing list of blocks with an insertion point. The block graph and the program do the same,
  for every meaning of expressions and straight-line statements, and one diverges exactly when the other
  does; the graph is well formed exactly when `return` comes last in its list.
- **Expressions and types** (`tokens.dfy`, `type_parser.dfy`, `expr_parser.dfy`, `expr_printing.dfy`,
  `expr_exactness.dfy`, `cast_precedence.dfy`, `operator_table.dfy`): the precedence-climbing parser and the
  type parser over token sequences, exactly which types and expressions survive printing and reparsing,
  exactly where casts may stand for a chain of operators to be read as its precedences say, and the tables
  all this rests on, spelled out: the levels of the operators, operands, type words, optional commas.
- **Scopes, registration and lowering** (`registry.dfy`, `steady.dfy`, `stmt_fills.dfy`, `lowering.dfy`,
  `stmt_registration.dfy`, `stmt_lowering.dfy`, `stmt_order.dfy`): entries get ids from one counter, are filed
  under names and ids, and are lowered by walking the ids upward while lowering registers more of them. What
  comes out is the direct translation of what went in, statement for statement and with every name's id
  that of its nearest declaration in the IR itself, unless a pointer into a table outlives its bucket; which
  programs that happens to is found from their text.
- **Sorted vectors** (`flat_vectors.dfy`): heap sort whose node 0 has one child, over values or over
  offsets relative to their own place; binary find and linear scan.
- **Checksum** (`crc32.dfy`): CRC-32 as the project pack uses it, and that the reader's check detects every
  burst of up to 32 bits.
- **Stores and codecs** (`snapshot.dfy`, `config_codec.dfy`, `chunk_writers.dfy`, `containers.dfy`,
  `decimals.dfy`): the snapshot file as a map from names to texts, the byte codec of the configuration,
  bounded chunk files and containers with back-patched indexes.
- **Source positions** (`lexer.dfy`, `lexer_shapes.dfy`, `lines.dfy`): where tokens end, which spellings are
  one token in any surroundings, the table of line starts the lexer keeps, and the two ways a diagnostic
  finds its line.
- **TOML** (`toml_syntax.dfy`, `toml_spelling.dfy`, `toml_sound.dfy`, `toml_tree.dfy`, `toml_build.dfy`,
  `toml_accepts.dfy`, `toml_headers.dfy`, `toml_parser.dfy`): what a text says, read without regard to a tree;
  that every document can be written and read back, and that nothing else is read; the tree, what statements
  build in it, and that it holds them at the end; exactly which entries and headers a given tree accepts, and
  that without headers this is a matter of spelling: no keys begin those of another entry; and the parser,
  which reads and builds at the same time and does exactly what reading first and building afterwards does.

Code that changes things in place is modelled by classes and arrays whose methods are proved against
functions; the lemmas are about those functions. `options.dfy` and `bytes.dfy` hold what several modules share.

Some things to know when reading:

- Foreign code and the world outside are parameters: hash functions, the meaning of expressions
  (`Meaning`), the format of a chunk file, the files themselves, which are byte or character sequences.
- Where the code misbehaves the model keeps the code and says exactly when: the round trips of types and
  expressions, the snapshot's colon, 16-bit lengths, misplaced returns, a table of lines that lags behind.
- A `var` initialiser is registered in a throw-away child scope but lowered in the scope around it
  (src/register/register.c:782, src/ir/ir.c:60). `Detached` says what that yields: an operator, cast or
  index loses its operands. `let` and `const` drop an initialiser that is a plain call
  (src/register/register.c:802), because its tag is 0.
- A `let` or `const` keeps a pointer to the bucket of its initialiser, in the table that later statements
  of the same scope are put into (src/register/register.c:802, 819). A put that finds the table at its load
  limit moves the buckets (include/third-party/khashl.h:219), and lowering then reads through a pointer to
  storage the table has left. The model counts the moves of every table, records the count in the pointer
  (`Slot`), and lets a pointer whose count is out of date read as `IStale`: nothing is promised about what
  the code finds there. How full a table is after a list of statements, and so which pointers survive,
  depends on the parameters and the list alone (`FillAfter`, `Survives`).
- The pointer of a `var` leads into its throw-away scope, which nothing else refers to and nothing is put
  into afterwards, so it is modelled by the scope and id of its entry (`Handle`).
- Within one step the code also reads pointers after later puts into the same table: the first operand's
  id after the second is registered (src/register/register.c:271-279), an assignment's target after its
  value (src/register/register.c:969-977), and, while a struct literal's fields are put into the table, the
  literal and the entries around it (src/ir/ir.c:547-570, 634-648, 372-388). The model reads a copy, and the
  ghost field `stale` of the register object records that the buckets had moved by then: up to that moment
  its values are those of the code, afterwards the code may read anything. Registration sets it exactly if
  the parameters and statements are not steady (`Steady`, `SteadyStmts`), which they decide alone: `x = 1 + 2;`
  at the start of a body is not. Lowering sets it only if buckets move (`Settled`), and so never without
  struct literals. The theorem about whole bodies promises an expression where both hold.
- A child scope is numbered when it is first filled, while the code allocates all the scopes of a
  statement first; scope numbers are the model's own and nothing else sees them.
- The code copies numbers to files as they lie in memory; the model takes a machine that puts the low byte
  first.
- Loops of the lexer that never end on an unclosed comment (src/syntax/lexer.c:59, 138) are reported as
  `stuck` instead. Its branch for `//` inside `lexer_chars` cannot be reached, since line comments are
  skipped before a token starts, and is not modelled.
- `BitStep` and the laws of words in `crc32.dfy` are stated for named word operations, so that proofs over
  byte strings use the laws alone.

## Model

| member | source | states |
|---|---|---|
| `Khashl.FibonacciHashInRange` | include/third-party/khashl.h:102 | The Fibonacci hash of any 32-bit value lies in `[0, 2^bits)`, which is all the table asks of a home slot |
| `Khashl.FibonacciHashTopBits` | include/third-party/khashl.h:102 | It is the top bits of the product with 2654435769, cut to 32 bits |
| `Khashl.FreeSlotExists` | include/third-party/khashl.h:77 | Below the 75% limit some slot is unused: the reason every probe ends |
| `Khashl.RoundedBitsLeast` | include/third-party/khashl.h:168-171 | The number of bits chosen for a request is the least that covers it, and at least 2 |
| `Khashl.Table.QuarterFree` | include/third-party/khashl.h:77 | A table never has more entries than three quarters of its buckets: `4 * count <= 3 * Capacity()` |
| `Khashl.NewBits` | include/third-party/khashl.h:168-171 | The shifting loop computes that number |
| `Khashl.NextBits` | include/third-party/khashl.h:219-222 | At the load limit, asking for one slot more doubles the table and brings it below the limit |
| `Khashl.ProbeFree` | include/third-party/khashl.h:192-193 | The inner probe of the rehash ends at a free slot with only marked slots before it, going round the end if need be |
| `Khashl.KickStep` | include/third-party/khashl.h:190-198 | A kick keeps the stored entries plus the one in hand: the one put down is found at its slot, the one picked up is now in hand, and one old mark is gone |
| `Khashl.WriteStep` | include/third-party/khashl.h:198-201 | Writing the entry in hand to a slot that is not an old entry keeps everything placed and probes unbroken |
| `Khashl.KickOut` | include/third-party/khashl.h:190-202 | The kick-out loop ends, with the entry it started from and all it displaced stored where their probes reach them |
| `Khashl.Rehash` | include/third-party/khashl.h:185-203 | The in-place rehash moves every old entry to the new marks exactly once and stores nothing else |
| `Khashl.RehashInto` | include/third-party/khashl.h:178-208 | Growing or shrinking, the buckets of the new size hold exactly the old entries, each reachable from its new home through used slots |
| `Khashl.Rebuilt` | include/third-party/khashl.h:175-211 | The reallocated arrays of a rehash hold the same finite map |
| `Khashl.HoleStart` | include/third-party/khashl.h:243-247 | A deletion starts with one hole and everything else in order |
| `Khashl.HoleAdvance` | include/third-party/khashl.h:247-253 | Each turn of the backward shift, wrap-around included, keeps every other entry reachable |
| `Khashl.HoleEnd` | include/third-party/khashl.h:254-256 | When the scan meets a free slot or comes round, clearing the hole leaves no probe broken |
| `Khashl.SearchResult` | include/third-party/khashl.h:155-160 | Where a probe stops tells whether the key is in the map |
| `Khashl.Table.constructor` | include/third-party/khashl.h:128-135 | A new table is empty and has no buckets |
| `Khashl.Table.Clear` | include/third-party/khashl.h:141-147 | Forgets all entries, keeps the buckets |
| `Khashl.Table.Get` | include/third-party/khashl.h:150-161 | Ends, and returns the slot of the key with its value, or the capacity exactly when the key is absent |
| `Khashl.Table.Resize` | include/third-party/khashl.h:166-212 | Keeps the map; a request of the same size changes nothing, one for fewer buckets than four thirds of the entries is refused, and any other is met exactly |
| `Khashl.Table.FindSlot` | include/third-party/khashl.h:225-229 | Returns the slot of a stored key, else the free slot its probe ends at |
| `Khashl.Table.Put` | include/third-party/khashl.h:215-237 | Adds the entry if the key is absent, leaves a present one untouched, says which; the buckets stay in place exactly if `4 * count < 3 * Capacity()` before, and otherwise are twice as many, or the first four |
| `Khashl.Table.Del` | include/third-party/khashl.h:242-257 | Removes exactly the key at the slot and keeps every other key reachable |
| `Khashl.Table.ForEach` | src/footprint/footprint.c:857-860 | Walking the used slots visits every entry of the map exactly once |
| `Khashl.Assign` | src/register/register.c:29-31 | Put followed by a store to the value is insert-or-overwrite |
| `Khashl.RunAll` | include/third-party/khashl.h:214-257 | Every sequence of put, set, get, delete, clear and resize from a new table gives the answers of a finite map and ends in a valid table of its content |
| `Codegen.Builder.CodegenStmts` | src/codegen/codegen.c:170-239 | Statement by statement the builder reaches the graph the simulation is proved about |
| `Codegen.Builder.GenerateIf` | src/codegen/main/stmt.c:77-104 | Three blocks, a conditional branch, both arms, and a branch to the merge block where an arm is still open |
| `Codegen.Builder.GenerateLoop` | src/codegen/main/stmt.c:106-152 | `while` and `for` alike: condition block, body block, back edge, merge block |
| `CodegenSemantics.GenListExtends` | src/codegen/codegen.c:170-239 | Generation only ever appends: earlier blocks keep their instructions, and only the one being extended grows |
| `CodegenSemantics.SimulateList` | src/codegen/codegen.c:170-239 | Running a statement list and running the blocks made for it go hand in hand, step counts included |
| `CodegenSemantics.SimulateIf` | src/codegen/main/stmt.c:77-104 | The blocks of an `if` do what the `if` does |
| `CodegenSemantics.SimulateIterations` | src/codegen/main/stmt.c:106-152 | The blocks of a loop do what its iterations do |
| `CodegenSemantics.GraphDoesWhatProgramDoes` | src/codegen/main/stmt.c:77-152 | If the structured program ends, so does the block graph, with the same store and returned value |
| `CodegenSemantics.ProgramDoesWhatGraphDoes` | src/codegen/main/stmt.c:77-152 | If the block graph stops, the structured program ends the same way |
| `CodegenSemantics.GraphStopsIffProgramStops` | src/codegen/main/stmt.c:77-152 | One diverges exactly when the other does |
| `CodegenWellFormed.WellFormedIffReturnsLast` | src/codegen/codegen.c:210-214 | Every block but the insertion block has exactly one terminator, at its end, if and only if `return` is last in every list; branch targets always exist |
| `CodegenWellFormed.CompleteIffEndsInReturn` | src/codegen/codegen.c:210-214 | No block at all lacks its terminator exactly when the body also ends in `return` |
| `CodegenWellFormed.StmtAppends` | src/codegen/codegen.c:170-239 | Every statement appends to the block it is generated in, so one after a `return` spoils it |
| `CodegenWellFormed.MisplacedReturnSpoils` | src/codegen/codegen.c:210-214 | A `return` that is not last leaves a block with instructions after a terminator |
| `CodegenWellFormed.ListTargets` | src/codegen/main/stmt.c:84-150 | Every branch goes to an existing block |
| `TypeParser.ParsedTypeReadable` | src/syntax/parser.c:759-769 | The parser never returns a plain pointer to a pointer: two stars always read as a raw pointer |
| `TypeParser.TypeRoundTrip` | src/syntax/parser.c:697-823 | Printing a type and parsing it again gives the type back if and only if no plain pointer directly wraps a pointer and atomic types are imported |
| `TypeParser.TypeReader.ReadType` | src/syntax/parser.c:697-823 | The parser object reads what the specification function reads and stops where it stops |
| `TypeParser.TypeReader.ReadPointer` | src/syntax/parser.c:759-769 | One star or two |
| `TypeParser.TypeReader.ReadFnPtr` | src/syntax/parser.c:771-791 | Optional parameter list and result |
| `TypeParser.TypeReader.ReadTypes` | src/syntax/parser.c:746-754 | Elements up to the closing parenthesis, commas optional |
| `OperatorTable.TypeWords` | src/syntax/parser.c:708-713 | The types of one word, token by token |
| `OperatorTable.Stars` | src/syntax/parser.c:759-769 | One star makes a plain pointer, two a raw one, and a third belongs to what it points to |
| `OperatorTable.TypeShapes` | src/syntax/parser.c:697-823 | Tuples, function types and atomic types, token by token; atomic types only where atomics are imported |
| `OperatorTable.FunctionTypesMayBeShort` | src/syntax/parser.c:771-791 | `func` with any parameters and no colon after them has result void, and so has `func` alone |
| `OperatorTable.FunctionTypeWithoutParameters` | src/syntax/parser.c:771-791 | `func: t` has no parameters and result t |
| `OperatorTable.TypeCommasOptional` | src/syntax/parser.c:746-754 | Between types, and after the last one, every comma may be left out |
| `ExprParser.ExprReader.ReadBp` | src/syntax/parser.c:160-203 | The precedence-climbing loop with its cast |
| `ExprParser.ExprReader.ReadPrimary` | src/syntax/parser.c:237-402 | Operands: prefix operators, parentheses, literals, names |
| `ExprParser.ExprReader.ReadNamed` | src/syntax/parser.c:356-392 | What may follow a name |
| `ExprParser.ExprReader.ReadArgs` | src/syntax/parser.c:451-469 | Positional arguments, commas optional |
| `ExprParser.ExprReader.ReadFields` | src/syntax/parser.c:121-145 | Fields of a struct literal |
| `OperatorTable.TwoOperatorsParse` | src/syntax/parser.c:94-109 | With the operators listed from the loosest to the tightest in ten levels, `a p b q c` is read as `(a p b) q c` if the level of p is not looser than that of q, and as `a p (b q c)` if it is, for any operators and names |
| `OperatorTable.EveryOperatorHasALevel` | src/syntax/parser.c:94-109 | Every binary operator is on one of those levels |
| `OperatorTable.PrefixParses` | src/syntax/parser.c:240-288 | Each of the four prefix operators takes the operand after it and no more, whatever binary operator follows |
| `OperatorTable.OperandTokens` | src/syntax/parser.c:298-305 | Exactly numbers, strings, characters, `true`, `false`, `null` and names can stand alone as an operand |
| `OperatorTable.Shapes` | src/syntax/parser.c:290-392 | Parentheses, calls, indexing, struct literals and casts, token by token |
| `OperatorTable.ArgumentCommasOptional` | src/syntax/parser.c:451-469 | Between arguments, and after the last one, every comma may be left out |
| `OperatorTable.FieldCommasOptional` | src/syntax/parser.c:121-145 | The same for the fields of a struct literal |
| `ExprPrinting.ExprRoundTrip` | src/syntax/parser.c:160-207 | Printing with the parentheses nesting needs and parsing again is the identity over literals, names, prefix and binary operators, casts, calls, indexing and struct literals |
| `ExprExactness.RoundTripIffPrintable` | src/syntax/parser.c:160-207 | Printing and parsing again gives the expression back if and only if its literals are literals, its cast types survive, and no index opens with a parenthesis, whatever follows |
| `ExprExactness.BpSurplus` | src/syntax/parser.c:160-203 | A parse that succeeds closes as many brackets as it opens, but for indexes opened by a parenthesis |
| `ExprExactness.BpSound` | src/syntax/parser.c:160-203 | The parser returns only literal tokens as literals and only types that survive printing |
| `ExprPrinting.FlatSequenceParses` | src/syntax/parser.c:160-180 | On operands separated by binary operators the parser returns the one tree whose yield is the tokens, whose left children bind at least as tightly and whose right children bind strictly tighter |
| `ExprPrinting.TightPrintsBare` | src/syntax/parser.c:160-180 | Such trees are those printed without parentheses |
| `ExprPrinting.ParenthesisedIndexIsMisread` | src/syntax/parser.c:378-382 | `x[(a + b) * c]` is read as a call, for any names |
| `CastPrecedence.ReadAsMeantIffPlaced` | src/syntax/parser.c:160-203 | A chain of operands, parenthesised ones included, operators and casts is read to its end as the precedences say if and only if no operand is cast twice and every cast operand is last or stands before an operator that binds no tighter than the one before it |
| `CastPrecedence.MeansOneTree` | src/syntax/parser.c:94-109 | Every such chain has exactly one tree the precedences allow, with every cast on an operand |
| `CastPrecedence.ReadInOrder` | src/syntax/parser.c:160-203 | Wherever the casts stand, the chain keeps its order and what is left unread is its end |
| `CastPrecedence.FirstCastEndsExpression` | src/syntax/parser.c:182-200 | After a cast first operand nothing more is read: of `a as T + b` the `+ b` is left over, of `a as T as U` the `as U` |
| `CastPrecedence.CastGoesLeft` | src/syntax/parser.c:182-200 | Of `a + b as T * c` the whole sum is multiplied: for any two operators a cast operand between them goes to the left one |
| `CastPrecedence.SecondCastIsOfTheWhole` | src/syntax/parser.c:182-200 | Of `a + b as T as U` the second cast is of the sum |
| `Decimals.DecimalInjective` | src/register/register.c:34-39 | Different ids have different keys |
| `Decimals.DecimalSpelled` | src/register/register.c:34-39 | Keys are written in base ten, highest digit first, without leading zeros |
| `Decimals.ScanDecimal` | src/footprint/footprint.c:297 | Reading a printed number gives it back, whatever follows |
| `Registry.InsertGrows` | src/register/register.c:24-42 | An insertion loses and changes nothing, takes a fresh id and makes the entry findable under it |
| `Registry.InsertValid` | src/register/register.c:24-42 | Keys stay names or the numerals of their entries, and no id is found in two scopes |
| `Registry.MakeChildValid` | src/register/register.c:133-143 | A child scope is empty and below its parent |
| `Registry.LookupStable` | src/register/register.c:145-153 | Registering expressions never changes what a name means |
| `Registry.LookupThroughExprScope` | src/register/register.c:208-214 | A scope made for arguments resolves names as the scope around it |
| `Registry.InsertFill` | src/register/register.c:24-42 | An insertion is one put for the id and, if there is a name, one before it, which finds the name taken or adds it |
| `Registry.MovedIff` | include/third-party/khashl.h:219-222 | A run of n new keys leaves the buckets of a table in place if and only if `4 * (count + n) <= 3 * cap`, or there are none |
| `Steadiness.FirstOperandStays` | src/register/register.c:270-287 | The bucket of the first operand is where it was when its id is read if and only if the entries of the second find room in the table |
| `Steadiness.OperandsWatched` | src/register/register.c:270-287 | Registering two operands reads a stale pointer exactly if one of them does by itself or the second finds no room after the first |
| `Steadiness.EntriesAdded` | src/register/register.c:204-553 | How many entries some expressions add to the scope they stand in: `a[1] as T` four, a call one |
| `StmtFills.SurvivesIffRoom` | include/third-party/khashl.h:219-222 | The pointer of a `let` or `const` survives registration if and only if its own entry and each later statement of its list finds room in the table |
| `StmtFills.SecondLetSpoilsFirst` | src/register/register.c:799-812 | Of `let x = 1; let y = 2;` the second spoils the initialiser of the first |
| `StmtFills.ThirdLetSpoilsSecond` | src/register/register.c:799-812 | A third `let` of a literal spoils the second and keeps its own initialiser |
| `StmtFills.EntriesOfStatements` | src/register/register.c:774-913 | How many entries some statements add to the table they go into: a loop one, a `var` two, a `let` of a sum five |
| `StmtFills.FirstAssignmentIsUnsteady` | src/register/register.c:965-981 | `x = 1 + 2;` at the start of a body without parameters reads the id of its target through a stale pointer |
| `Lowering.DirectStable` | src/ir/ir.c:473-705 | The translation of an expression does not change while others are registered |
| `Lowering.Registrar.InsertEntry` | src/register/register.c:24-42 | Assigns the next id, files the entry under its name if that is new, and under its id |
| `Lowering.Registrar.Get` | src/register/register.c:145-153 | The nearest enclosing scope that declares the name decides |
| `Lowering.Registrar.FindId` | src/register/register.c:44-49 | Looks in the one scope only |
| `Lowering.Registrar.RegisterExpr` | src/register/register.c:204-553 | Leaves entries that stand for the expression, adds exactly its size to its own scope, changes nothing else, and reads a stale pointer exactly if the expression is not steady in a table as full as it found it |
| `Lowering.Registrar.RegisterArgs` | src/register/register.c:207-214 | Arguments in a child scope, in order; a stale pointer is read exactly if they are not steady in an empty table |
| `Lowering.Registrar.LowerExpr` | src/ir/ir.c:473-705 | Lowering an entry where it was registered gives exactly the direct structural translation, names resolved there; lowering it in the parent instead loses operands that are found by id; without struct literals nothing is registered, and a stale pointer is read only if buckets move |
| `Lowering.Registrar.LowerOperand` | src/ir/ir.c:634-648 | A missing operand leaves its place empty |
| `Lowering.Registrar.LowerArgs` | src/ir/ir.c:479-490 | Each argument is lowered in the call's own scope and means there what it means outside |
| `Lowering.Registrar.LowerFields` | src/ir/ir.c:547-570 | Struct fields are registered afresh while lowering and translate directly; that the literal has moved before a field or the end is noticed |
| `Lowering.Registrar.RegisterAndLower` | src/ir/ir.c:553-558 | Registering an expression and lowering its id gives its direct translation |
| `Lowering.DetachedRightIff` | src/register/register.c:774-797 | A `var` initialiser comes out right if and only if it is not an operator, a cast or an index |
| `StmtRegistration.RegisterStmt` | src/register/register.c:1019-1043 | A statement gets the next place in its scope, a name only if it is the first to declare it, leaves the table exactly as full as its size says, and reads a stale pointer exactly if it is not steady |
| `StmtRegistration.BuildDeclaration` | src/register/register.c:774-829 | `var` initialisers in a throw-away child scope; `let` and `const` in place, with a pointer to the bucket as it then is, unless they are plain calls |
| `StmtRegistration.BuildIf` | src/register/register.c:832-871 | Condition and both bodies each in a scope of their own |
| `StmtRegistration.BuildLoop` | src/register/register.c:874-913 | Condition or iterator and body each in a scope of their own |
| `StmtRegistration.FillScope` | src/register/register.c:166-170 | A scope filled from a list, after any parameters, holds its statements in order, a name means the parameter or else the first statement that declares it, and every table, pointer and stale read is as the list and the start determine |
| `StmtRegistration.RegisterFunctionBody` | src/register/register.c:555-576 | Parameters, default values and body in a scope of their own: names and ids, fill and stale reads as parameters and body determine |
| `StmtRegistration.RegisterPair` | src/register/register.c:965-981 | Target and value of an assignment; the id of the target is read through a stale pointer exactly if the value finds no room |
| `StmtRegistration.ScopeRepStable` | src/ir/ir.c:707-735 | Entries that lowering itself registers are never taken for statements |
| `StmtLowering.LowerScope` | src/ir/ir.c:707-735 | The id-walking loop ends although its bound rises, and emits each statement exactly once in source order |
| `StmtLowering.LowerStmt` | src/ir/ir.c:712-732 | One statement by its kind |
| `StmtLowering.LowerDeclaration` | src/ir/ir.c:58-144 | Declarations keep name and id; a `var` initialiser is lowered in the parent of its scope, a `let` or `const` one through its pointer |
| `StmtLowering.LowerInPlace` | src/ir/ir.c:93-144 | A `let` or `const` initialiser translates directly if the buckets of its scope are where they were when it was registered, and is lost if they are not |
| `StmtLowering.LowerIf` | src/ir/ir.c:241-261 | Condition in its scope, then both bodies |
| `StmtLowering.LowerLoop` | src/ir/ir.c:263-297 | Condition or iterator in its scope, then the body |
| `StmtLowering.LowerSimple` | src/ir/ir.c:331-388 | Return, expression and assignment statements; a `return` without value finds no id 0 |
| `StmtLowering.LowerPair` | src/ir/ir.c:372-388 | Target and value both translate directly; that the entry of the value or of the statement has moved before it is read is noticed |
| `StmtLowering.ZeroIsNoId` | src/main.c:690 | The counter starts at 1, so no entry is found under 0 |
| `StmtOrder.ScopeMirrors` | src/ir/ir.c:707-735 | At every nesting level the k-th statement out comes from the k-th statement in, with each expression for which no stale pointer was read and the id its names refer to, a `var` initialiser without its operands, and a `let` or `const` initialiser if its pointer survives |
| `StmtOrder.NameMeansFirstDeclaration` | src/register/register.c:27-32 | In a filled scope a name means its first parameter, else its first declaration there, else what it means outside |
| `StmtOrder.FirstDeclaredIff` | src/register/register.c:27-32 | The id the IR refers to is that of the declaration that no earlier one of its list repeats |
| `StmtOrder.ZeroIffUndeclared` | src/ir/ir.c:589-596 | Where ids are positive, a name carries 0 if and only if no enclosing list declares it |
| `StmtOrder.TranslateBody` | src/ir/ir.c:430-456 | Registering and lowering any function body yields IR that mirrors it statement for statement, each expression where registration and lowering read no stale pointer for it; in it every name, call and struct literal carries the id of the first declaration of its name in the nearest enclosing list of the IR, parameters first, and 0 only if there is none; later declarations of a list have greater ids; that no stale pointer was read in registration is decided by parameters and body alone |
| `FlatVectors.OffsetMoves` | include/third-party/flatcc/bin/flatbuffers_common_reader.h:424-430 | The adjusted offsets lead to the same addresses modulo 2^32 |
| `FlatVectors.Swap` | include/third-party/flatcc/bin/flatbuffers_common_reader.h:423-430 | Either kind of swap exchanges exactly two elements as a reader sees them |
| `FlatVectors.SiftStep` | include/third-party/flatcc/bin/flatbuffers_common_reader.h:388-405 | A swap with the greater child keeps the heap order everywhere but at that child |
| `FlatVectors.SiftDown` | include/third-party/flatcc/bin/flatbuffers_common_reader.h:384-406 | Restores the heap from `start` on, moving nothing after `end` |
| `FlatVectors.GreaterChild` | include/third-party/flatcc/bin/flatbuffers_common_reader.h:389-396 | The child that is compared, with 1 as the only child of 0 |
| `FlatVectors.BuildHeap` | include/third-party/flatcc/bin/flatbuffers_common_reader.h:408-410 | Sifting from the middle down makes a heap, for every length |
| `FlatVectors.HeapTop` | include/third-party/flatcc/bin/flatbuffers_common_reader.h:411-412 | The first node of a heap is its greatest |
| `FlatVectors.HeapSort` | include/third-party/flatcc/bin/flatbuffers_common_reader.h:407-413 | Ends sorted by key, and a permutation of the values or of the absolute targets |
| `FlatVectors.Find` | include/third-party/flatcc/bin/flatbuffers_common_reader.h:242-261 | On a sorted vector the lowest matching index, and nothing exactly when a scan finds nothing; on any vector only a match |
| `FlatVectors.Scan` | include/third-party/flatcc/bin/flatbuffers_common_reader.h:290-299 | The first match in the range |
| `FlatVectors.ScanBack` | include/third-party/flatcc/bin/flatbuffers_common_reader.h:300-309 | The last match in the range |
| `Crc32.Crc32Update` | src/footprint/pack.c:10-18 | The nested loops compute the specification function |
| `Crc32.CheckValue` | src/footprint/pack.c:10-18 | The checksum of the digits 1 to 9 is 0xCBF43926 |
| `Crc32.CrcConcat` | src/footprint/pack.c:10-18 | The checksum of a concatenation is that of its second part started from that of its first |
| `Crc32.StepsLinear` | src/footprint/pack.c:15 | The register is linear over exclusive or |
| `Crc32.StepsInjective` | src/footprint/pack.c:15 | The register loses nothing |
| `Crc32.AbsorbWord` | src/footprint/pack.c:13-16 | Four bytes are absorbed as one little-endian word |
| `Crc32.RegisterIsBitRegister` | src/footprint/pack.c:13-16 | The register takes the bits of the file one by one, least significant first |
| `Crc32.AbsorbBits` | src/footprint/pack.c:13-16 | Up to 32 bits are absorbed as one word, from any bit on |
| `Crc32.BurstInjective` | src/footprint/pack.c:13-16 | Different strings of up to 32 bits leave the register different |
| `Crc32.TableDriven` | src/footprint/pack.c:13-16 | The bitwise loop agrees with the table-driven form of RFC 1952, section 8 |
| `Crc32.CrcDetectsBurst` | src/footprint/pack.c:10-18 | Changing anything within 32 consecutive bits, on byte boundaries or not, changes the checksum, whatever comes before and after |
| `Crc32.CheckPack` | src/footprint/pack.c:66-72 | Accepts a file of at least twelve bytes whose last four are the checksum of the rest |
| `Crc32.SealPack` | src/footprint/pack.c:113-118 | Writing keeps the payload, and the reader accepts the file if and only if the payload has eight bytes or more |
| `Crc32.AcceptedByResidue` | src/footprint/pack.c:66-72 | A file is accepted exactly when it has twelve bytes or more and its whole register is 0xDEBB20E3 |
| `Crc32.ChangedPackRejected` | src/footprint/pack.c:66-72 | An accepted file is rejected after any change within 32 consecutive bits, the checksum's own included |
| `Snapshot.BaseName` | src/footprint/footprint.c:216-221 | What follows the last separator |
| `Snapshot.BaseIsSuffix` | src/footprint/footprint.c:216-221 | It is the longest suffix without a slash or backslash |
| `Snapshot.EntryIsLocal` | src/footprint/footprint.c:283-309 | A record reads the same whatever follows it, unless a newline does |
| `Snapshot.HeaderReadsBack` | src/footprint/footprint.c:311-314 | A written record reads back as its name and text, whatever bytes the text holds |
| `Snapshot.HeaderSpelled` | src/footprint/footprint.c:311-314 | The first line of a record, character by character |
| `Snapshot.Store.Write` | src/footprint/footprint.c:272-322 | Keeps the bytes of all records of other names and appends the new one |
| `Snapshot.Store.Read` | src/footprint/footprint.c:324-371 | Returns the first record of the name |
| `Snapshot.WriteReplaces` | src/footprint/footprint.c:272-322 | Whatever the file held, a write leaves the records of other names in order and its own record last |
| `Snapshot.ReadAfterWrite` | src/footprint/footprint.c:324-371 | A name reads as last written, and every other name as before |
| `Snapshot.WrittenIsReadableIff` | src/footprint/footprint.c:288-290 | A written name can be read back if and only if it has no colon |
| `Snapshot.StoreIsAMap` | src/footprint/footprint.c:272-371 | A history of writes reads as the map from names to their last texts if and only if no name has a colon, and then the file is a list of records, at most one to a name |
| `ConfigCodec.ByteBuf.Serialize` | src/footprint/config.c:149-164 | Appends the encoding |
| `ConfigCodec.ByteBuf.PushStr` | include/footprint/bytes.h:17-21 | A 16-bit length and that many bytes |
| `ConfigCodec.LowByteFirst` | include/footprint/bytes.h:13-15 | Lengths and counts are written and read low byte first |
| `ConfigCodec.FieldOrder` | src/footprint/config.c:149-164 | The order of the fields, on an encoding byte by byte |
| `ConfigCodec.ByteReader.Read` | include/footprint/bytes.h:41-46 | Reads all the bytes or none, and then never again |
| `ConfigCodec.ByteReader.ReadStr` | include/footprint/bytes.h:53-62 | A string, or nothing for an empty or missing one |
| `ConfigCodec.Deserialize` | src/footprint/config.c:166-188 | Reads what the specification function reads |
| `ConfigCodec.ReadsBack` | src/footprint/config.c:149-188 | With counts in 16 bits, an encoding reads back with strings cut at 16 bits of length and at a zero byte, empty ones absent, the rest unchanged |
| `ConfigCodec.RoundTripIffFits` | src/footprint/config.c:149-188 | The round trip is exact if and only if all lengths and counts fit 16 bits and no string holds a zero byte |
| `ConfigCodec.BodyStable` | include/footprint/bytes.h:41-62 | What was read without running out is read the same when more bytes follow |
| `ConfigCodec.PrefixNeverValid` | src/footprint/config.c:166-188 | No strict prefix of an encoding is reported valid |
| `Lines.GetLineNum` | include/ast.h:129-149 | The last line that starts at or before the target |
| `Lines.SearchCountsNewlines` | include/ast.h:129-149 | In the table of a lexed prefix the search counts the newlines before the target |
| `Lines.TableEntry` | src/syntax/lexer.c:41-48 | Entry k of the table is where line k starts |
| `Lines.WalkPos` | src/register/diagnostic.c:70-83 | The character-by-character walk gives line, column and line length |
| `Lines.PosSteps` | src/register/diagnostic.c:70-83 | Lines and columns count from 1; a newline starts the next line and any other character moves one column on |
| `Lines.TablePos` | src/register/diagnostic.c:54-67 | The path through the table gives the position as far as the table goes |
| `Lines.TableAgreesWithWalk` | src/register/diagnostic.c:49-84 | The two paths agree if and only if no newline lies between the end of the table and the pointer |
| `Lines.ResolvePos` | src/register/diagnostic.c:49-84 | Through the table when there is one, else by walking |
| `Lexing.Lexer.constructor` | src/syntax/lexer.c:16-26 | The table starts with position 0 |
| `Lexing.Lexer.AdvanceChar` | src/syntax/lexer.c:41-48 | Keeps the table exact: a line start after every newline passed |
| `Lexing.Lexer.SkipComments` | src/syntax/lexer.c:50-62 | Blanks and line comments; reports the comment whose loop would not end |
| `Lexing.Lexer.SkipBlock` | src/syntax/lexer.c:136-145 | Block comments, likewise |
| `Lexing.Lexer.ComputeTop` | src/syntax/lexer.c:65-81 | The next token, and a table that is exact up to its end |
| `Lexing.Lexer.ReadNumber` | src/syntax/lexer.c:286-362 | Where a number ends |
| `Lexing.Lexer.ReadString` | src/syntax/lexer.c:364-385 | Where a string ends, escapes included |
| `Lexing.Lexer.ReadChar` | src/syntax/lexer.c:387-405 | Where a character literal ends |
| `Lexing.Lexer.ReadOperator` | src/syntax/lexer.c:83-175 | The longest operator |
| `Lexing.Lexer.LexAll` | src/syntax/lexer.c:28-39 | Returns exactly the tokens from here to the end and a complete table, or those before the comment that never ends |
| `Lexing.TokensCover` | src/syntax/lexer.c:65-81 | The tokens of a text read to its end are not empty, do not overlap, and leave out only blanks and comments |
| `Lexing.AfterBlockIsFirst` | src/syntax/lexer.c:136-145 | A block comment ends at the first closing mark after its opening, and never ends exactly if there is none |
| `LexerShapes.EscapedString` | src/syntax/lexer.c:364-385 | Every text with a backslash before each quote and backslash, in quotes, is one token, whatever stands before and after |
| `LexerShapes.ClosedString` | src/syntax/lexer.c:364-385 | A string ends at its first quote that no backslash escapes |
| `LexerShapes.OpenString` | src/syntax/lexer.c:364-385 | A string that is not closed runs to the end of the text |
| `LexerShapes.EveryString` | src/syntax/lexer.c:364-385 | Every text after a quote is of one of these forms |
| `LexerShapes.CharLiterals` | src/syntax/lexer.c:387-405 | A character in quotes, an escaped one, and one whose closing quote is missing |
| `LexerShapes.Words` | src/syntax/lexer.c:177-193 | Letters, digits and underscores after a letter or underscore are one token, as far as they go |
| `LexerShapes.Integers` | src/syntax/lexer.c:334-361 | Digits are one token, unless a fraction follows or they are the zero of a prefix |
| `LexerShapes.Fractions` | src/syntax/lexer.c:338-353 | Digits, a point and digits are one token |
| `LexerShapes.Radixes` | src/syntax/lexer.c:289-331 | `0x`, `0b` and `0o` with the digits of their base, which may be none, are one token |
| `LexerShapes.Operators` | src/syntax/lexer.c:83-175 | Each of the 20 operators of two or three characters, and every other single character, is one token unless a longer operator starts there |
| `LexerShapes.Blanks` | src/syntax/lexer.c:50-54 | The six blanks separate tokens |
| `LexerShapes.LineComments` | src/syntax/lexer.c:56-62 | A line comment ends with its line |
| `LexerShapes.BlockComments` | src/syntax/lexer.c:136-145 | A block comment ends at its first star and slash |
| `LexerShapes.EndlessComments` | src/syntax/lexer.c:56-62 | A comment that never ends leaves no token |
| `Containers.BuildContainer` | src/footprint/footprint.c:543-571 | Header, back-patched index and units stand one after the other, whatever the index memory held before |
| `Containers.FileFront` | src/footprint/footprint.c:553-561 | A file starts with the letters PACK, version 1, hash and count, and the first unit follows 24 bytes of header and 24 for each unit |
| `Containers.LowByteFirst` | src/footprint/footprint.c:553-561 | Numbers are written low byte first |
| `Containers.UnitsTile` | src/footprint/footprint.c:563-569 | Offsets step by sizes from the end of the index to the end of the file |
| `Containers.UnitsReadBack` | src/footprint/footprint.c:563-571 | Following the index gives every unit back, byte for byte |
| `ChunkWriters.GroupWriters.constructor` | src/footprint/footprint.c:146-155 | Chunk numbers start at 1 |
| `ChunkWriters.GroupWriters.FlushUint` | src/footprint/footprint.c:157-165 | The waiting symbols become the next chunk |
| `ChunkWriters.GroupWriters.Add` | src/footprint/footprint.c:167-173 | Chunks keep within 65536 bytes and are flushed only when full; nothing added is lost or reordered |
| `ChunkWriters.GroupWriters.FlushAll` | src/footprint/footprint.c:175-180 | Afterwards the chunks of each of the groups 0 to 6, numbered from 1, concatenate to its additions, all but the last full; groups 7 and 8 are as they were |
| `ChunkWriters.MergeUints` | src/footprint/footprint.c:543-578 | A group with chunks gets a container of exactly its chunk files in order |
| `ChunkWriters.MergeFinal` | src/footprint/footprint.c:707-750 | The final container holds the present groups in order and then the function bodies |
| `ChunkWriters.PackHoldsAdditions` | src/footprint/footprint.c:543-578 | Unit i of a group's container is chunk i+1, and the chunks together are all additions |
| `TomlTree.ExactlyOneLookup` | include/third-party/toml/toml.c:1880-1922 | For an existing key exactly one of the raw, array and table lookups succeeds, for any other none |
| `TomlTree.KindMeaning` | include/third-party/toml/toml.c:1020-1064 | A kind other than mixed holds of every item; mixed means two items differ |
| `TomlTree.ValueKeepsTree` | include/third-party/toml/toml.c:736-773 | A value under a new key keeps the tree a tree with distinct keys |
| `TomlTree.ArrayKeepsTree` | include/third-party/toml/toml.c:825-862 | So does an array |
| `TomlTree.TableKeepsTree` | include/third-party/toml/toml.c:777-821 | So does a table |
| `TomlTree.ItemKeepsTree` | include/third-party/toml/toml.c:864-917 | An appended item keeps the kind of its array true |
| `TomlSpelling.DocumentReadsBack` | include/third-party/toml/toml.c:1402-1470 | Every list of statements, written out as tokens, is read back as that list: entries, nested arrays, inline tables and headers of up to 10 keys |
| `TomlSpelling.WrittenDocumentParses` | include/third-party/toml/toml.c:1402-1470 | Parsing a written document succeeds exactly when its statements can be built one after the other, and builds what they build |
| `TomlSpelling.NewLinesInArrays` | include/third-party/toml/toml.c:1006-1099 | In an array newlines may stand before and after every element |
| `TomlSpelling.TrailingCommas` | include/third-party/toml/toml.c:945-1099 | A comma may stand before the closing bracket or brace |
| `TomlSpelling.InlineOnOneLine` | include/third-party/toml/toml.c:945-983 | An inline table stands on one line |
| `TomlSpelling.HeadersSpelled` | include/third-party/toml/toml.c:1312-1400 | Single and doubled headers, token by token |
| `TomlSpelling.EntriesSpelled` | include/third-party/toml/toml.c:1106-1189 | Entries with dotted keys, arrays and inline tables, token by token |
| `TomlSound.DocumentMatches` | include/third-party/toml/toml.c:1402-1470 | Conversely, every text that is read is, but for newlines, trailing commas, the spelling of keys and gaps between brackets, the spelling of the statements it is read as |
| `TomlBuild.EntryBuilt` | include/third-party/toml/toml.c:1106-1189 | A built entry is in the tree with all its items and inline entries, the tree is sound, and nodes made before its table are as they were |
| `TomlBuild.ItemsBuilt` | include/third-party/toml/toml.c:1006-1099 | An array gets exactly one item for each element, in order |
| `TomlBuild.InlineBuilt` | include/third-party/toml/toml.c:945-983 | All entries of an inline table are in it, and it is then closed |
| `TomlBuild.EntryStays` | include/third-party/toml/toml.c:736-917 | An entry that the tree holds is held by whatever the tree grows into |
| `TomlAccepts.EntryAccepted` | include/third-party/toml/toml.c:1106-1189 | An entry is built if and only if the keys before the last lead to open tables or to nothing, and either the last key leads to nothing and the value is in order, or it leads to an implicit table and the value is an inline table whose entries are accepted there one after the other |
| `TomlAccepts.ItemsAccepted` | include/third-party/toml/toml.c:1006-1099 | An array is built if and only if every inline table in it is in order by its spelling alone |
| `TomlAccepts.InlineAccepted` | include/third-party/toml/toml.c:945-983 | A new inline table is built if and only if the keys of none of its entries begin, or are, those of another, and the same holds inside their values |
| `TomlAccepts.EntryEffect` | include/third-party/toml/toml.c:1106-1189 | Building an entry under keys that lead to nothing puts open tables along the way and something closed at its end, and changes what no other keys see |
| `TomlAccepts.SectionAccepted` | include/third-party/toml/toml.c:1434-1465 | Entries read where nothing has been read before, at the start or after the header of a new table, are built if and only if the keys of none begin, or are, those of another, and the same holds in every inline table |
| `TomlAccepts.PlainDocument` | include/third-party/toml/toml.c:1402-1470 | A document without headers and inline tables is built if and only if no key path of an entry is a prefix of another's |
| `TomlHeaders.WrittenEntriesParse` | include/third-party/toml/toml.c:1402-1470 | The text of any list of entries is parsed if and only if they are in order by their spelling alone |
| `TomlHeaders.HeaderAccepted` | include/third-party/toml/toml.c:1312-1400 | A header is built if and only if the keys before the last lead to a table or to nothing, and the last key has nothing under it, or an implicit table for a single header, or an array of tables for a doubled one |
| `TomlHeaders.HeaderOnce` | include/third-party/toml/toml.c:777-821 | No single header can be repeated at once |
| `TomlHeaders.SuperTableLater` | include/third-party/toml/toml.c:1282-1300 | The tables a header makes on its way can still be defined by headers of their own |
| `TomlBuild.PathWalked` | include/third-party/toml/toml.c:1250-1309 | Walking the keys of a header ends at the table they lead to from the root, the last one in an array of tables |
| `TomlBuild.Selected` | include/third-party/toml/toml.c:1342-1380 | A header selects the table under its last key: new, no longer implicit, or the last of its array |
| `TomlBuild.HeaderSelects` | include/third-party/toml/toml.c:1312-1400 | After a header the current table is the one its whole path leads to |
| `TomlBuild.TableTwice` | include/third-party/toml/toml.c:1312-1348 | A single header whose path leads somewhere already is accepted if and only if that is a table no header or entry has made explicit: no table is defined twice |
| `TomlBuild.TableChangesAtHeaders` | include/third-party/toml/toml.c:1443-1458 | Entries without a header between them go to the same table |
| `TomlBuild.DocumentHolds` | include/third-party/toml/toml.c:1402-1470 | At the end every entry of the document is in the tree under the table of its header, whatever came after it |
| `TomlBuild.DocumentIsTree` | include/third-party/toml/toml.c:1402-1470 | What a document builds is a tree with distinct keys in every table and truthful kinds |
| `TomlParser.ItemsTurn` | include/third-party/toml/toml.c:1006-1099 | Reading first and building afterwards agrees with one turn of the array loop, which does both at once |
| `TomlParser.DocumentTurn` | include/third-party/toml/toml.c:1434-1465 | The same for one turn of the main loop |
| `TomlParser.Parser.CreateKeyval` | include/third-party/toml/toml.c:736-773 | Succeeds exactly when the key is good and new, and adds exactly that value |
| `TomlParser.Parser.CreateKeytable` | include/third-party/toml/toml.c:777-821 | A new table, or an implicit one, which becomes explicit; an explicit table, a value or an array under the key is refused |
| `TomlParser.Parser.CreateKeyarray` | include/third-party/toml/toml.c:825-862 | Succeeds exactly when the key is good and new, and adds exactly an empty array |
| `TomlParser.Parser.ParseArray` | include/third-party/toml/toml.c:1006-1099 | Succeeds exactly when an array can be read here and its elements built, and then has built those and stands behind it |
| `TomlParser.Parser.ParseInlineTable` | include/third-party/toml/toml.c:945-983 | The same for an inline table and its entries |
| `TomlParser.Parser.ParseKeyval` | include/third-party/toml/toml.c:1106-1189 | The same for an entry, whose value may be an array or an inline table |
| `TomlParser.Parser.FillTabpath` | include/third-party/toml/toml.c:1201-1245 | Exactly the keys up to the closing bracket, at most ten |
| `TomlParser.Parser.WalkTabpath` | include/third-party/toml/toml.c:1250-1309 | Makes exactly the steps of the path, with implicit tables for missing keys |
| `TomlParser.Parser.SelectInArray` | include/third-party/toml/toml.c:1348-1380 | A new table at the end of the array of tables under the key, which is made if there is none |
| `TomlParser.Parser.ParseSelect` | include/third-party/toml/toml.c:1312-1400 | Succeeds exactly when a header can be read here and its table selected, and then has selected it |
| `TomlParser.Parser.Parse` | include/third-party/toml/toml.c:1402-1470 | Succeeds exactly when the whole text can be read and its statements built, and returns what they build |
| `TomlParser.ParsedTextHolds` | include/third-party/toml/toml.c:1402-1470 | The tree of a parsed text is sound and holds every entry that was read under the table selected for it |

## Left out

- Khashl.Table: the `used` bits are an array of booleans, not bits packed into 32-bit words; allocation failure, capacities beyond 32 bits and the ensemble variant are not modelled.
- Khashl.Table.Del: requires a used slot, as its callers pass one found by a lookup; the code does not check it.
- Codegen: `match`, atomics and the assignment operator, which the code ignores or drops; building values and types in the foreign library.
- ExprParser: error recovery, generic arguments, and array literals, which no branch reaches; a parse error ends the parse.
- ExprParser.ExprReader.ReadPrimary: does not read `self` and the built-in functions, which are operands of other shapes that no precedence or bracket depends on; they end the parse.
- ExprParser.ExprReader.ReadNamed: does not read member access and method calls, nor generic arguments; a dot ends the parse.
- ExprParser.ExprReader.ReadArgs: does not read named arguments; a name before a colon ends the parse.
- TypeParser: array types, which compare unrelated enumerations in the code.
- Lowering: the decoding of literal text; the element type of an index; types, modes and source ranges.
- Lowering.Registrar.RegisterExpr: does not model unary, address-of, field, method and array expressions, whose entries keep pointers to other buckets; its entries are those of the code while `stale` is false.
- Lowering.Registrar.LowerExpr: does not model the same expressions; its result is that of the code while `stale` is false.
- Lowering.Registrar.LowerFields: its result is that of the code while `stale` is false; where a struct literal in an argument is lowered, `stale` is bounded by the moves of buckets and not found from the text.
- Lowering.Registrar.RegisterAndLower: its result is that of the code while `stale` is false.
- StmtLowering: classes, traits, externs and modules.
- StmtLowering.LowerStmt: does not model `match`, atomics and definitions inside bodies.
- StmtRegistration.RegisterStmt: does not model functions inside bodies, classes, `match`, atomics, or `else` bodies that arrive as statements of their own, for which registration has no case; names and identifiers are taken to start with a letter or underscore, as the lexer makes them, so that no name is the numeral of an id.
- StmtOrder.TranslateBody: of an expression for which a stale pointer was read nothing is promised, and the promises for the rest suppose that lowering gets past the number found there, which could be the id of any entry; where a struct literal moves buckets in lowering, the initialisers whose pointers survived registration may still be lost, which `LowerInPlace` decides at the time of the statement.
- FlatVectors: keys are real numbers, into which every key order of a scalar or string vector embeds; floating-point values that are not numbers, and strings with embedded zero bytes, on which sort and find compare differently, are not modelled.
- Crc32: the payload's own format and its verifier; files between memory and disk.
- Snapshot.Store.Write: requires a header of at most 511 characters, since the code copies a longer one from beyond its 512-byte buffer.
- Snapshot.NextEntry: reads the size as plain digits; the blanks and signs `atoll` would also take never occur in a file the code wrote.
- ConfigCodec: the fields of the configuration that are not written, and parsing it from TOML.
- Lexing: which keyword or value a token is; `lexer_peek`'s retry when an unknown character leaves the token untyped; characters beyond ASCII.
- ChunkWriters.GroupWriters.FlushUint: requires waiting symbols, as both its callers make sure of.
- ChunkWriters: the strings of symbols, which are stored before a possible flush; function bodies' own chunks and their merge, whose count of index entries differs from what it fills; chunk files left from an earlier run.
- Containers: a unit file that cannot be read, which leaves its size unset.
- TomlParser: the tree after a failed parse, which the code frees; scanning characters into tokens, unescaping keys, the types of values, and memory; a closed inline table can still be extended through a header, because only `parse_keyval` looks at `readonly`.
- Pack synchronisation, hashing of sources, directories, linking, printing and colours: plumbing around the parts above.
