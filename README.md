# A verified model of a tiny x86-64 compiler's middle end

The compiler reads a small C-like language and emits GNU assembler text for
x86-64. This project models its two middle stages in Dafny and proves what
they promise.

- **The semantic analyser** (`src/syntax.rs`) walks the parse tree once. It fills:
  - a string-literal pool, where a literal's id is its index;
  - the tables of functions and extern declarations, keyed by name;
  - one variable scope per function, registered under an id from a counter;
  - each function's list of statements.

  It checks that an assignment operator suits the type it is applied to. `optimize` drops every function with an empty body.
- **The code generator** (`src/assembler.rs`) appends assembly lines to a buffer. First it writes the read-only data section for the pool. Then it writes `main`, then every other function. For each function it:
  - lays out the stack frame, giving every variable of the function's scope tree its own 8-byte slot;
  - emits the prologue;
  - lowers calls, passing the first six arguments in `rdi, rsi, rdx, rcx, r8, r9` (the integer argument registers of section 3.2.3 of the System V AMD64 psABI) and pushing the rest;
  - zeroes `%eax` before a variadic `printf` call (section 3.5.7 of the same ABI);
  - lowers string-literal assignments;
  - emits the epilogue.

Modules, one per file:

- `Common` (`common.dfy`): the `Outcome` of a step and the decimal rendering of numbers.
  - `Err` is an `Err(...)` the Rust code returns.
  - `Unsupported` is a `todo!()`.
  - `Fatal` is a `panic!` or an `unwrap()` of a missing value.
- `Grammar` (`grammar.dfy`): the parse tree as `Node(rule, children, text)`.
- `Types` (`types.dfy`): the program model: `VarType`, `Variable`, `Parameter`, `VarTree`, `Function`, `Block`, `ExternFunction`, `FnCall`, `Statement`.
- `Scope` (`scope.dfy`): variable lookup in a scope. It also holds the ghost multiset of every frame offset in a scope tree, which the frame layout is proved against.
- `Syntax` (`syntax.dfy`): the analyser.
  - Each decision it makes is a pure function, and lemmas about it.
  - The class `Syntax` holds the analyser's mutable state. Its methods are proved to change that state exactly as those functions say.
  - `Valid()` is kept throughout. It says that:
    - each function is stored under its own name and has a registered scope;
    - function ids are distinct;
    - every statement is well formed against the pool.
- `Lowering` (`lowering.dfy`): the lines each code-generator step emits and how the step ends, as pure functions, and what is proved about them.
- `Assembler` (`assembler.dfy`): the class `Assembler`, whose `asm` buffer only grows.
  - Each method is proved to append exactly the lines `Lowering` describes.
  - Frame layout (`CalcStack`) is proved to give every variable of a scope tree a distinct slot, whatever the order in which the hash map of child scopes is visited.

## Model

| member | source | states |
|---|---|---|
| Types.FromStr | src/syntax.rs:432-442 | Exactly the six keywords `int char string bool void ...` are accepted, each naming its own type; any other text panics (`None`) |
| Types.FromRule | src/syntax.rs:444-453 | `string`/`STRING` give String, `char` gives Char, `integer`/`INT` give Int, every other rule panics: each type comes out exactly for its rules, and only Int, Char or String can come out |
| Scope.FirstNamed | src/syntax.rs:261 | `position` by name: the index of the first variable with that name, `None` exactly when no variable has it |
| Scope.Lookup | src/syntax.rs:187 | `find` by name in the scope's own list: the first variable with that name, `None` exactly when there is none; enclosing scopes are not searched |
| Scope.ChildStacksAnyOrder | src/assembler.rs:97-99 | Visiting the child scopes in any duplicate-free order that covers the map yields the same offsets, so the hash map's iteration order does not matter |
| Scope.SlotRangeDistinct | src/assembler.rs:92-96 | The slots `start, start+8, ...` are each present once, and are exactly the aligned offsets from `start` below `start + 8n` |
| Common.NatToString | src/assembler.rs:113 | `{}` of a `usize`: a non-empty run of decimal digits with no leading zero |
| Common.DecimalRoundTrip | src/assembler.rs:65 | Reading the rendering of a number back as decimal gives the number |
| Syntax.CheckCanAssign | src/syntax.rs:323-343 | `=` suits every type; `+= -= *= /= %=` succeed iff the type is Int or Char, else "Cannot perform math on T"; `&= \|=` succeed iff Bool, Int or Char, else "Cannot perform logic on T"; any other tag gives "Unknown assignment" |
| Syntax.LowerArgMeaning | src/syntax.rs:146-204 | A literal argument is lowered by its grammar tag: a `string` literal becomes a String parameter holding the literal's text with id = pool size, and that text is interned; an `integer` literal becomes an Int parameter holding its text with no id and nothing interned; a `char` literal is unsupported and an unknown tag panics. An identifier takes the type of the first variable of that name and an unknown name stops the call with "Unknown variable"; a lowered parameter is well formed |
| Syntax.LowerArgs | src/syntax.rs:143-206 | The pool after a call's arguments is the old pool plus the literals of the lowered parameters in order; all arguments are lowered on success, fewer on failure |
| Syntax.LowerArgsGrows | src/syntax.rs:146-205 | Each argument keeps the parameters and pool built so far and adds at most one parameter, lowered against the pool left by the earlier ones |
| Syntax.LowerArgsFailure | src/syntax.rs:188-190 | A failed call stops at the first argument that fails, with that argument's outcome |
| Syntax.LowerArgsStopped | src/syntax.rs:189 | Once an argument fails, the later arguments are never looked at |
| Syntax.LowerArgsInterning | src/syntax.rs:162-165 | Every interned literal's id is the old pool size plus the literals interned before it, and the pool holds its text at that id |
| Syntax.LowerArgsIdsIncrease | src/syntax.rs:163 | Ids handed to the literals of one call increase strictly |
| Syntax.LowerArgsIdentifiers | src/syntax.rs:185-199 | A non-literal parameter names a variable of the caller's own scope and carries the type of the first variable of that name |
| Syntax.LowerArgsWellFormed | src/syntax.rs:176-199 | Every lowered parameter is well formed against the resulting pool (a literal has text; a string literal has an id inside the pool) |
| Syntax.AssignValue | src/syntax.rs:275-321 | A literal of known type succeeds exactly when `check_can_assign` accepts its type with the operator, and otherwise returns that check's error; on success it is interned whatever its type with id = pool size and yields one assignment statement whose operator is the given one and whose value type is `from_rule` of the literal. An identifier value returns the check's error for its type, or is unsupported once the check passes ("Unknown variable" when undeclared); a failure interns nothing |
| Syntax.DeclarationAssignmentSpec | src/syntax.rs:242-256 | The operator is first checked against the declared type and its error returned; on success the operator and value are the two nodes after the declaration and the step is exactly `AssignValue` for the declared variable; a statement is appended exactly when the step succeeds |
| Syntax.AssignmentSpec | src/syntax.rs:258-273 | An undeclared target gives "Unknown variable"; a declared target whose type the operator does not suit gives `check_can_assign`'s error; on success the target is declared, the operator suits its type and the step is exactly `AssignValue` of the target, operator and value nodes |
| Syntax.ParamMapLastWins | src/syntax.rs:72-79 | The type recorded for a parameter name is the one declared by the last parameter of that name |
| Syntax.ExternParamTypes | src/syntax.rs:349-355 | The extern's parameter types, one per node in order, each read by `from_str`; the read succeeds exactly when every node is a known type keyword, and an unknown keyword panics |
| Syntax.ReturnTypeAt | src/syntax.rs:81-86 | The return type is `Void` when no `return_type` node is at the peeked position; when one is, reading succeeds exactly when it has a child whose text `from_str` knows, and the type is that one; every failure is a panic |
| Syntax.FunctionHeader | src/syntax.rs:66-86 | The name is the first child. A parameter list, peeked at position 1, gives the parameters by `ParamMap` (none without one); the return type is `ReturnTypeAt` the next position. The header succeeds exactly when both reads succeed, and the body position is after the optional parameter list and return type |
| Syntax.ParamMap | src/syntax.rs:70-80 | The parameter list is read exactly when every parameter has a type and a name and its type keyword is known; a failure is a panic |
| Syntax.ExternHeader | src/syntax.rs:345-366 | The extern's name is its first child; a parameter list, peeked at position 1, gives the parameter types by `ExternParamTypes` (none without one); the return type is `ReturnTypeAt` the next position; the header succeeds exactly when both reads succeed, and failures are panics |
| Syntax.Syntax.constructor | src/syntax.rs:17-35 | Empty tables and pool, root scope with no parent and frame 0, counter 0; the invariant holds |
| Syntax.Syntax.GenId | src/syntax.rs:37-41 | Returns the counter and advances it by exactly one |
| Syntax.Syntax.Analyze | src/syntax.rs:43-49 | Every top-level node in turn, stopping at the first failure; the invariant is kept and the pool and counter only grow |
| Syntax.Syntax.Parse | src/syntax.rs:51-64 | An extern node stores `ExternHeader`'s signature under its name or returns its failure; a function node leaves the externs alone, returns a header failure with nothing minted, changes no table on failure, and on success adds or replaces only the header's name, with the fresh id and its scope; end of input does nothing; a top-level declaration or any other node is unsupported; only a function changes the function table and scopes |
| Syntax.Syntax.ParseFunction | src/syntax.rs:66-117 | A header failure returns that header's outcome and changes nothing; otherwise one id is minted; a missing block gives "No code block for function" and registers nothing. With a block, the outcome is that of the statement run over it (`BodyRun`), starting from an empty block and scope: Ok exactly when every statement succeeds, else the first failure. On success the scope is registered under the fresh id and the function, under its name with the header's parameters and return type and the run's final block, is the only entry added or replaced |
| Syntax.Syntax.Define | src/syntax.rs:87-117 | Given the header, one id is minted; a missing block gives "No code block for function" and interns nothing; otherwise the outcome is that of the statement run over the block (`BodyRun`) from an empty block and scope (father 0, stack 0); a failure registers nothing; on success the run's final scope is added under the fresh id and the function, with the header's name, parameters and return type and the run's final block, is the only table entry added or replaced |
| Syntax.Syntax.Register | src/syntax.rs:114-115 | The scope goes under the function's id and the function under its name, nothing else changes, and the invariant is kept |
| Syntax.Syntax.ParseBody | src/syntax.rs:105-109 | The body's statements run in order, each from the block, scope and pool the previous one left and as `parse_statement` states (`BodyRun`); the loop stops at the first failure and returns its outcome, and is Ok only after every statement succeeded; every appended statement is well formed |
| Syntax.Syntax.ReadHeader | src/syntax.rs:67-86 | The header read computes exactly `FunctionHeader` |
| Syntax.Syntax.ReadParams | src/syntax.rs:70-80 | The parameter loop computes exactly `ParamMap` |
| Syntax.Syntax.ParseStatement | src/syntax.rs:119-137 | A node that is not a statement (or has no inner node) panics and changes nothing; a function call, declaration or assignment inside it changes the block, pool, scope and outcome exactly as `FunctionCall`, `Declaration` and `AssignmentSpec` state; every other inner rule, `return_statement` included, is unsupported and changes nothing |
| Syntax.Syntax.Argument | src/syntax.rs:147-204 | One pass of the argument loop computes `LowerArg` and appends exactly its interned literal to the pool |
| Syntax.Syntax.FunctionCall | src/syntax.rs:139-220 | The arguments are lowered left to right; on success the call is an extern call if the name is an extern (even if a function has it too), else an internal call if a function has it, else "Unknown function" with no statement appended |
| Syntax.Syntax.Declaration | src/syntax.rs:222-240 | The variable is appended to the scope with no offset; an initialiser is handled as a declaration assignment |
| Syntax.Syntax.DeclarationAssignment | src/syntax.rs:242-256 | Changes the pool, block and outcome exactly as `DeclarationAssignmentSpec` says |
| Syntax.Syntax.Assignment | src/syntax.rs:258-273 | Changes the pool, block and outcome exactly as `AssignmentSpec` says |
| Syntax.Syntax.AssignmentInner | src/syntax.rs:275-321 | Changes the pool, block and outcome exactly as `AssignValue` says |
| Syntax.Syntax.ParseExternFunction | src/syntax.rs:345-370 | On success the signature is stored under its name, replacing any earlier one; on failure the table is unchanged |
| Syntax.Syntax.ReadExternHeader | src/syntax.rs:346-366 | The header read computes exactly `ExternHeader` |
| Syntax.Syntax.ReadExternParams | src/syntax.rs:349-355 | The parameter loop computes exactly `ExternParamTypes` |
| Syntax.Syntax.Optimize | src/syntax.rs:381-394 | Exactly the functions with no statements are removed; the others are unchanged; the invariant is kept |
| Syntax.Syntax.EmptyFunctions | src/syntax.rs:382-387 | A name is collected iff its function has no statements |
| Syntax.Syntax.RemoveFunctions | src/syntax.rs:389-391 | Exactly the listed names leave the table and the remaining entries are unchanged |
| Lowering.StrLabelInjective | src/assembler.rs:65 | Distinct pool ids get distinct `.STR` labels |
| Lowering.PassParam | src/assembler.rs:215-246 | An argument passes iff it emits exactly one line. An Int literal gives `movq $v, %dest`; an Int variable is unsupported. A string literal gives `leaq .STR{id}(%rip), %dest`. A string variable fails iff it is not in the function's scope ("Cannot find variable"); when its slot is known it gives `movq -{off}(%rbp), %dest`. Void and VarArgs give "Cannot pass void type" / "Cannot pass varargs" with no line. Char and Bool are unsupported |
| Lowering.PushParam | src/assembler.rs:248-271 | A pushed argument succeeds iff it is a string with a pool id, emitting `leaq .STR{id}(%rip), %rax` then `pushq %rax`; every other type is unsupported and emits nothing |
| Lowering.PassParamsOk | src/assembler.rs:193-203 | The arguments pass iff each one does at its own index |
| Lowering.PassParamsGrows | src/assembler.rs:193-203 | Passing arguments take one line per register argument and two per pushed one, and a prefix's lines stay in place |
| Lowering.RegisterArguments | src/assembler.rs:194-200 | Argument i < 6 is the single load into `REGS[i]` (rdi, rsi, rdx, rcx, r8, r9) and sits at line i |
| Lowering.PushedArguments | src/assembler.rs:196-197 | Each argument from the seventh on is a `leaq`/`pushq` pair at lines 2i-6 and 2i-5: pushed in ascending order, not reversed |
| Lowering.PassParamsStopped | src/assembler.rs:193-203 | After the first failing argument the rest are not looked at |
| Lowering.FirstFailingArgument | src/assembler.rs:193-203 | The first failing argument decides the outcome; a failing register argument adds no line of its own |
| Lowering.UnpassableArgument | src/assembler.rs:242-243 | A Void or VarArgs register argument ends the call with its error and no line of its own |
| Lowering.ArgumentLinesShape | src/assembler.rs:215-271 | Every argument line is a `movq`, `leaq` or `pushq` instruction |
| Lowering.AssignmentAsm | src/assembler.rs:151-179 | A "# Assignment" line first. It succeeds iff the operator is `=`, the value a string with an id and the target in the scope with an offset: then `leaq .STR{id}(%rip), %rax` and `movq %rax, -{offset}(%rbp)` with the first variable of that name. An unknown target gives "Cannot find variable" |
| Lowering.StatementAsm | src/assembler.rs:116-181 | Each statement's lines open with a comment line; Block and Return are unsupported |
| Lowering.InternalCall | src/assembler.rs:121-125 | An internal call takes its arguments' outcome, ends with `call name` and never zeroes `%eax` |
| Lowering.ExternCall | src/assembler.rs:126-143 | A successful extern call ends with `call name@PLT`, and `xor %eax, %eax` appears, right before it, iff the callee is `printf` declared with a variadic tail |
| Lowering.BodyAsm | src/assembler.rs:116-182 | A function body's lines open with a comment line |
| Lowering.BodyAsmStopped | src/assembler.rs:116-182 | After the first statement that does not succeed, the rest are not looked at |
| Lowering.FunctionShape | src/assembler.rs:109-189 | Every function opens with its label, `pushq %rbp`, `movq %rsp, %rbp`, has `subq $N, %rsp` next iff its frame size N > 0, and when it succeeds ends with `# End Function`, `xor %eax, %eax`, `movq %rbp, %rsp`, `popq %rbp`, `ret` |
| Lowering.PoolLines | src/assembler.rs:63-67 | Two lines per pool entry |
| Lowering.PoolLinesAt | src/assembler.rs:63-67 | Entry i gives `.STR{i}:` then `  .string <text>`, in index order |
| Lowering.HeaderLayout | src/assembler.rs:60-68 | The output opens with `.text`, `.section .rodata`, `.align 8`, then one label/`.string` pair per pool entry in index order under pairwise distinct labels, then an empty line |
| Lowering.ProgramStart | src/assembler.rs:60-72 | The program is the header, then `.text`/`.globl main`, then `main`'s label; a failure in `main` is the program's outcome |
| Assembler.FrameHoldsEveryVariable | src/assembler.rs:104-108 | After layout, only offsets and the frame size have changed. Every variable of the scope tree has a slot of its own: 8-byte aligned, inside the frame, no two alike. The frame size is 8 bytes per variable, and the scope's own variables sit at 0, 8, 16, ... |
| Assembler.Assembler.constructor | src/assembler.rs:51-53 | An empty buffer over the analysed program |
| Assembler.Assembler.PushAsm | src/assembler.rs:273-275 | Appends exactly one line |
| Assembler.Assembler.CalcStack | src/assembler.rs:91-101 | Only offsets change. Own variables get `start, start+8, ...` in list order. The n variables of the whole tree get the n slots from `start`, one each, in any child order. The result is `start + 8n` |
| Assembler.Assembler.NumberVariables | src/assembler.rs:93-96 | The own variables keep names and types and get `start + 8i` |
| Assembler.Assembler.LayOutChildren | src/assembler.rs:97-99 | Every child scope is laid out once, from the running offset, in any order, and together they fill the slots after the own variables |
| Assembler.Assembler.LayOutChild | src/assembler.rs:98 | One pending child is laid out from the running offset, which advances past its slots |
| Assembler.Assembler.FindVariable | src/assembler.rs:205-213 | The first variable with that name in the scope's own list, as `Lookup` |
| Assembler.Assembler.AsmPassParam | src/assembler.rs:215-246 | Appends exactly `PassParam`'s lines and returns its outcome |
| Assembler.Assembler.AsmPushParameter | src/assembler.rs:248-271 | Appends exactly `PushParam`'s lines and returns its outcome |
| Assembler.Assembler.AsmPassParameters | src/assembler.rs:193-203 | Appends exactly `PassParams`'s lines and returns its outcome |
| Assembler.Assembler.AsmAssignment | src/assembler.rs:151-179 | Appends exactly `AssignmentAsm`'s lines and returns its outcome |
| Assembler.Assembler.AsmStatement | src/assembler.rs:117-181 | Appends exactly `StatementAsm`'s lines and returns its outcome |
| Assembler.Assembler.AsmStatements | src/assembler.rs:116-182 | Appends exactly `BodyAsm`'s lines and returns its outcome |
| Assembler.Assembler.AsmFunction | src/assembler.rs:103-191 | Lays out only this function's scope (`FrameHoldsEveryVariable` applies), stores the frame size, and appends exactly `FunctionAsm`'s lines; a function with no scope panics and changes nothing |
| Assembler.Assembler.AsmFrame | src/assembler.rs:104-108 | Only the scope `id` changes; it is laid out from 0 and its frame size is returned |
| Assembler.Assembler.AsmCode | src/assembler.rs:109-190 | Appends the prologue, the body and, on success, the epilogue: exactly `FunctionAsm`'s lines |
| Assembler.Assembler.AsmPrologue | src/assembler.rs:109-114 | Appends the label, frame setup and, for a non-empty frame, `subq` |
| Assembler.Assembler.AsmEpilogue | src/assembler.rs:183-189 | Appends the five epilogue lines |
| Assembler.Assembler.AsmHeader | src/assembler.rs:60-68 | Appends exactly the header: directives, pool entries in index order, empty line |
| Assembler.Assembler.AsmOthers | src/assembler.rs:75-86 | Visits every other function once, in any order, appending each one's lines and an empty line and stopping at the first failure; only the visited functions' scopes change, each laid out |
| Assembler.Assembler.AsmOther | src/assembler.rs:83-85 | One function not yet visited: its scope laid out, its lines and an empty line appended |
| Assembler.Assembler.Assemble | src/assembler.rs:55-89 | Without `main` it panics and changes nothing. Otherwise `main` leaves the table (so it is emitted once) and the buffer gains the header, `.globl main`, `main`, then every other function. Every scope emitted is laid out. The result is the buffer joined by newlines, or the first failure |

## Left out

- `src/main.rs` (reading the source file, running the parser, writing temporary files, invoking `gcc`) and `assets/utils.c` (a C runtime helper): I/O and process plumbing, not part of this model.
- The grammar and its generated parser are not part of this model. A parse-tree node is its rule tag, its children and its text. Rules the code never names are `Other`.
- `todo!()` and `panic!` branches become `Unsupported` and `Fatal` outcomes, not behaviour. Their messages are paraphrased. The `Err` messages are kept verbatim, with `{:?}` of a type or rule rendered as its name.
- Hash map iteration order: the order of the other functions in `assemble` and of the child scopes in `calc_stack` is an arbitrary choice. Every property is stated for any order; the order taken is a ghost out-parameter.
- The `x32` and `x16` columns of `REGS` are never read and are not modelled.
- Rust's `usize` is unbounded `nat`: overflow of the frame size or of the id counter is not modelled.
- Rust borrowing and `clone()` are not modelled: the `code` block and `vars` scope passed by `&mut` are in/out values, and `main` is taken by value out of the table.
- The `name == "main"` skip in the loop of `assemble` cannot fire, because `main` has already been removed from the table. The model has no such test. `Assemble`'s contract states that `main` is no longer in the table that loop visits.
- `add_return` is always true in the source, so the epilogue is emitted whenever the body succeeds.
- Behaviours of the code that a reader might not expect, which the model keeps as written:
  - an assignment interns every literal, whatever its type, not only strings;
  - an integer literal argument in a register position is emitted as `movq $v, %reg`;
  - arguments after the sixth are pushed in ascending order of position;
  - an unknown assignment operator is an `Err`, not a panic;
  - `%eax` is zeroed only for a callee named `printf`, not for every variadic extern.
- Syntax.Syntax.Analyze: states only the invariant, pool growth and counter growth over the whole walk, not the final tables; each step's effect is stated by `Parse` and the methods it calls.
- Frame safety: the first variable of each function sits at offset 0, that is at `-0(%rbp)`, the slot that holds the saved frame pointer. The model emits the source's offsets exactly and makes no claim that the frame is safe to use.
