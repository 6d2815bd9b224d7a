# A verified model of the java_interpreter front end and REPL

java_interpreter is a Python program that reads a small subset of Java. Its
compiler half turns a line of source into tokens, parses class, field,
assignment, method and constructor statements with a recursive-descent parser,
and files the members of each class into tables. Its interpreter half is a REPL.
The REPL keeps a stack of variable frames plus the instance variables. It
declares and assigns typed variables, checks every value against the declared
type, and drives `if`/`else`, `while` and `for` blocks. The code exists in
several drafts that differ in small ways, and the model keeps each draft's own
behaviour.

What the model covers, one Dafny module per source component:

- `Lexer` and `Buffers`. The delimiter padding and whitespace split of
  `Buffer.tokenize` (compiler/buffer.py, identical in frontend/compile_parse.py).
  The `Buffer` class keeps its tokens in reverse, as the source does.
- `Statements`, `CompileParse` and `FrontendParse`. `Statement` records and the
  identifier check.
  - The compiler draft's grammar (compiler/compile_parse.py, over a `Buffer`).
  - The front-end draft's grammar (frontend/compile_parse.py, over a list
    consumed with `pop(0)`, modelled by the `TokenList` class).
  - Each grammar rule is a function over token sequences. The imperative
    `Read*` methods are proved against those functions.
- `Members` and `CompileEval`. `Method`/`Variable` records and the compiler's
  `ClassObj` evaluator (compiler/compile_eval.py).
- `Structures`. The caller-filled `ClassObj`, `Variable` and `Instance` classes
  (interface/structures.py). interface/primitives.py holds the same `Variable`,
  `Method` and `ClassObj` without `clone` and `Instance`, and this module models
  it too.
- `InternalClasses`. The `InternalClass` evaluators of main/compile_eval.py and
  frontend/www/compile_eval.py. They differ only in the blank value of a new
  field. It also covers the `CLASSES` registry, `process_params` and the
  `ExternalClass` copy.
- `Constants`, `Util` and `Variables`. The interpreter's tables, `parse_value`,
  `flatten_list` and the interpreter's `Variable` class.
- `Assign`. Declaration, assignment, the type check with its rollback, and
  variable lookup. This covers main/assign.py and its copy in main/javarepl.py,
  told apart by a `Draft` parameter. The REPL's global stack and instance
  variables form the `Environment` class.
- `Conditionals`. `verify_if_else_syntax` and `handle_conditional_statements`
  as the REPL runs them: the copy in main/javarepl.py:276-365 of
  interpreter/conditionals.py.
- `ReplMain`. The statement splitter of main/javarepl.py with its pending text
  and continuation flag, `remove_empty`, `java_form` (identical in
  interpreter/javarepl.py), and the `while` and `for` drivers.
- `InterpRepl`. The older REPL of interpreter/javarepl.py: its lookup, its
  splitter, `tokenize_one_expression` and the dispatch order of
  `Expression.eval`.
- `PyText` and `Wrappers`. The Python string built-ins the code relies on
  (`split`, `strip`, `find`, `replace`, `join`, and the fixed regular
  expressions used with `re.sub`, `re.split` and `re.match`). Also the `Result`
  and `Outcome` types, which model every Python exception the core raises as an
  error value.

Python's `eval` of an expression is the function parameter `ev`. `parse_eval`
of a loop body is the function parameter `run`. Loops driven by them take a
step bound `fuel`.

Where the documentation and the code disagree, the model follows the code.
This includes the four defects listed under "## Findings": the operations are
modelled as written, and a corrected member beside each one states the
intended behaviour. The other disagreements are:

- `static class` is not rejected.
- The type name in front of a declaration is not validated.
- A second constructor with the same number of parameters replaces the first in
  the evaluators that do not check.
- `while` and `for` conditions are taken by Python truthiness, not checked to
  be booleans.
- The self-test at frontend/compile_parse.py:347 expects the value `4;` for
  `x = 4;`. The code joins the tokens with spaces and yields `4 ;`, and
  `FrontendParse.AssignValueText` states the code's result.

## Model

| member | source | states |
|---|---|---|
| Lexer.PadDelims | compiler/buffer.py:79-80 | one `str.replace` per delimiter, in order, gives the one-pass padding of every delimiter |
| Lexer.ReplacePadded | compiler/buffer.py:79-80 | padding one more delimiter over an already padded line equals padding all of them at once |
| Lexer.Tokenize | compiler/buffer.py:69-81 | the tokens are the whitespace-separated words of the padded line |
| Lexer.TokensShape | compiler/buffer.py:79-81 | no token is empty or holds whitespace, and a token holding a delimiter is that delimiter alone |
| Lexer.TokensKeepText | compiler/buffer.py:79-81 | the tokens, concatenated, are the line's non-whitespace characters in order: nothing is lost or reordered |
| Buffers.ReverseInvolution | compiler/buffer.py:22-23 | reversing twice gives the list back, so the reversed storage reads in the original order |
| Buffers.ReverseDropLast | compiler/buffer.py:37 | popping the end of the stored list drops the first token in reading order |
| Buffers.PrependReverse | compiler/buffer.py:67 | appending to the stored list puts the token first in reading order |
| Buffers.Buffer.constructor | compiler/buffer.py:21-23 | a new buffer holds the line's tokens in reading order |
| Buffers.Buffer.Pop | compiler/buffer.py:25-37 | removes and returns the first token, leaving the rest in order; an empty buffer reports the end of input and stays empty |
| Buffers.Buffer.Current | compiler/buffer.py:39-57 | returns the token the next pop would return and changes nothing; end of input when empty |
| Buffers.Buffer.Prepend | compiler/buffer.py:59-67 | the token becomes the first and everything else keeps its order |
| Buffers.PopThenPrepend | compiler/buffer.py:25-67 | putting back the token just popped restores the buffer exactly |
| Buffers.Buffer.Empty | compiler/buffer.py:83-86 | true exactly when no tokens remain |
| Buffers.Buffer.Str | compiler/buffer.py:88-99 | the Python list display of the remaining tokens in reading order, not storage order |
| Buffers.PlainTextKept | compiler/buffer.py:88-99 | inside the list display, printable ASCII other than the backslash and the quote is shown as it is |
| Buffers.EscapedPrintable | compiler/buffer.py:88-99 | no control character survives the escaping of a token |
| Buffers.Buffer.Repr | compiler/buffer.py:101-112 | the same list display wrapped in `Buffer(...)` |
| Statements.GetItem | compiler/compile_parse.py:59-60 | succeeds exactly for a key present in the keyword map and returns its value; KeyError otherwise |
| Statements.SetItem | compiler/compile_parse.py:62-63 | afterwards the key reads the new value, every other key reads as before and the type is unchanged |
| Statements.Equals | compiler/compile_parse.py:65-67 | true exactly when the two statements are equal (same type and same keyword map) |
| Statements.ClassStmt | compiler/compile_parse.py:189-193 | a class statement holds `name`, `body`, `super` (None when absent) and `private` |
| Statements.DeclareStmt | compiler/compile_parse.py:234-238 | a declaration holds `name`, `type`, `private` and `static` |
| Statements.AssignStmt | compiler/compile_parse.py:249-251 | an assignment holds `name` and `value` |
| Statements.MethodStmt | compiler/compile_parse.py:281-287 | a method holds `name`, `type`, `args`, `body`, `private` and `static` |
| Statements.ConstructorStmt | compiler/compile_parse.py:311-315 | a constructor holds `name`, `args`, `body` and `private`, and no `static` |
| Statements.BuiltShapes | compiler/compile_parse.py:234-315 | every member statement the parser builds has the keys, with values of the right form, that the class evaluators read |
| CompileParse.ValidateName | compiler/compile_parse.py:102-103 | passes exactly the names the anchored pattern `[a-zA-Z][\w]*$` matches, and otherwise raises the SyntaxError naming the identifier |
| CompileParse.RunMatches | compiler/compile_parse.py:102 | the greedy run of word characters after the first letter decides the match, including `$` matching before a final newline |
| CompileParse.NamePasses | compiler/compile_parse.py:102-103 | every letter-then-word-characters name passes |
| CompileParse.NameFails | compiler/compile_parse.py:102-103 | a name that is empty or does not start with a letter fails with its SyntaxError |
| CompileParse.ValidNameExamples | compiler/parse_test.py:68-72 | `hello`, `x`, `foo` and `hello_world93` pass |
| CompileParse.InvalidNameExamples | compiler/parse_test.py:74-79 | `__init__`, `hyphen-here`, `space here`, `9gag` and `$jquery` fail |
| CompileParse.ParseHeader | compiler/compile_parse.py:134-143 | a statement is private exactly when its first token is the literal `private` (other modifiers are consumed in any case), and static exactly when `static` follows; running out of tokens is an error |
| CompileParse.PlainHeader | compiler/compile_parse.py:134-143 | a statement without modifier or `static` starts at its first token and is neither private nor static |
| CompileParse.ModifierHeader | compiler/compile_parse.py:134-139 | a modifier is consumed, and only `private` sets the flag |
| CompileParse.ParseStatement | compiler/compile_parse.py:134-154 | a successful read consumes at least one token and yields a statement of the shape its kind requires |
| CompileParse.PlainStatement | compiler/compile_parse.py:145-154 | without modifiers, `name =` starts an assignment and any other non-class statement is a declaration |
| CompileParse.StatementFlags | compiler/compile_parse.py:134-154 | every non-assignment records private as "first token is `private`", and declarations and methods record the `static` marker |
| CompileParse.ParseSuper | compiler/compile_parse.py:178-182 | without `extends` no token is consumed and the superclass is None |
| CompileParse.ParseMembers | compiler/compile_parse.py:185-188 | reads statements until `}`, consuming it, and keeps every member well-shaped |
| CompileParse.ParseClass | compiler/compile_parse.py:176-193 | a successful read consumes tokens and yields a well-shaped class statement |
| CompileParse.ClassNoSuper | compiler/parse_test.py:87-92 | `Ex {}` is a class named Ex with no superclass and an empty body |
| CompileParse.ClassWithSuper | compiler/parse_test.py:94-106 | `Ex extends B {}` has superclass B and keeps the private flag it was given |
| CompileParse.ClassBadSuper | compiler/compile_parse.py:179-182 | a superclass that is not a valid name raises its SyntaxError |
| CompileParse.ClassNoBrace | compiler/compile_parse.py:183-184 | a token other than `{` (or `extends`) after the name raises `expected {` |
| CompileParse.MembersStep | compiler/compile_parse.py:186-187 | a token other than `}` starts one more member statement |
| CompileParse.MembersEnd | compiler/compile_parse.py:186-188 | `}` ends the body and is consumed |
| CompileParse.ClassBody | compiler/compile_parse.py:176-193 | the class holds exactly the members read after its `{` |
| CompileParse.ModifierAfterClass | compiler/parse_test.py:117 | `class private Ex {}` is refused with `expected {` |
| CompileParse.ExtendsWithoutName | compiler/parse_test.py:119 | `Ex extends {}` is refused: `{` is not a valid superclass name |
| CompileParse.ParseDeclare | compiler/compile_parse.py:216-238 | yields a declaration, method or constructor, well-shaped, without consuming more than it has |
| CompileParse.DeclareDispatch | compiler/compile_parse.py:222-238 | after a valid name, `;` is consumed and ends a declaration, `=` ends it and pushes the name back, `(` starts a method, anything else raises `Unexpected token` |
| CompileParse.ConstructorDispatch | compiler/compile_parse.py:217-220 | `(` in place of the name starts a constructor, and a static constructor raises |
| CompileParse.DeclareFlags | compiler/compile_parse.py:216-238 | whatever is returned carries the private flag, static flag and type it was read with; a constructor is named by the type and never static |
| CompileParse.MethodFlags | compiler/compile_parse.py:278-287 | a method records its modifiers and type |
| CompileParse.ConstructorFlags | compiler/compile_parse.py:309-315 | a constructor is named by its type and is not static |
| CompileParse.DeclareThenAssign | compiler/compile_parse.py:225-226 | `int x = 3;` reads as a declaration followed by an assignment of `3 ;` |
| CompileParse.AssignValue | compiler/compile_parse.py:243-245 | the value collected stops at a `;`, which is left; running out of tokens is the end of input |
| CompileParse.AssignValueStep | compiler/compile_parse.py:244-245 | a token other than `;` joins the value |
| CompileParse.AssignValueExact | compiler/compile_parse.py:244-245 | the value is exactly the tokens before the first `;` |
| CompileParse.AssignValueUnterminated | compiler/compile_parse.py:244-245 | without a `;` the value never ends |
| CompileParse.ParseAssign | compiler/compile_parse.py:240-251 | a successful read consumes tokens and yields a well-shaped assignment |
| CompileParse.AssignGrammar | compiler/compile_parse.py:240-251 | the value is the tokens through the first `;`, space-joined; an empty right-hand side and an invalid name raise |
| CompileParse.AssignNeedsSemicolon | compiler/compile_parse.py:244-245 | with no `;` left the assignment runs out of input |
| CompileParse.ParseMethod | compiler/compile_parse.py:278-287 | a successful read yields a well-shaped method statement |
| CompileParse.ParseConstructor | compiler/compile_parse.py:309-315 | a successful read yields a well-shaped constructor statement |
| CompileParse.ParseParam | compiler/compile_parse.py:333-336 | a pair is taken exactly when both of the next two tokens are valid names, and is appended in order |
| CompileParse.ParamStep | compiler/compile_parse.py:333-336 | two valid names are taken as one (type, name) pair |
| CompileParse.FirstParam | compiler/compile_parse.py:332-336 | `)` means no first pair; anything else must be a pair |
| CompileParse.FirstOfCons | compiler/compile_parse.py:332-336 | a first pair of valid names is read as that pair |
| CompileParse.ParseMoreParams | compiler/compile_parse.py:337-342 | each further pair is introduced by `,` and never consumes more than there is |
| CompileParse.MoreParamsStep | compiler/compile_parse.py:337-342 | `, type name` adds one pair |
| CompileParse.MoreParamsRoundTrip | compiler/compile_parse.py:337-342 | the tokens of any list of valid pairs read back as that list |
| CompileParse.MoreParamsExact | compiler/compile_parse.py:337-342 | conversely, whatever is read is a list of valid pairs and the tokens were exactly its `, type name` tokens |
| CompileParse.ParseArgsTail | compiler/compile_parse.py:343-347 | succeeds exactly when `)` and then `{` follow, and consumes both |
| CompileParse.ParseArgs | compiler/compile_parse.py:331-347 | a successful read consumes at least the closing `)` and `{` |
| CompileParse.ArgsUnfold | compiler/compile_parse.py:331-347 | the parameter list is the first pair, the further pairs, then `)` and `{` |
| CompileParse.ArgsRoundTrip | compiler/compile_parse.py:331-347 | the tokens of any valid parameter list followed by `) {` read back as that list |
| CompileParse.ArgsRoundTripCons | compiler/compile_parse.py:331-347 | a non-empty valid list is read in full before the closing tokens are checked |
| CompileParse.ArgsExact | compiler/compile_parse.py:331-347 | whatever is accepted is a valid parameter list followed by `) {` |
| CompileParse.FirstExact | compiler/compile_parse.py:331-342 | what the first and further pairs consumed is exactly the list's tokens |
| CompileParse.ArgsGrammar | compiler/compile_parse.py:331-347 | accepted with result (args, rest) if and only if the tokens are the valid list args, `)`, `{`, then rest |
| CompileParse.BodyScan | compiler/compile_parse.py:363-370 | the brace-depth scan takes at least one token and leaves fewer |
| CompileParse.BodyScanBalanced | compiler/compile_parse.py:364-370 | a balanced body followed by `}` is taken through that `}` and no further |
| CompileParse.BodyScanShape | compiler/compile_parse.py:364-370 | the scan takes a prefix of the tokens that ends with `}` |
| CompileParse.BodyScanDepth | compiler/compile_parse.py:364-370 | no prefix of what is taken closes the opened brace before its last token |
| CompileParse.ParseBody | compiler/compile_parse.py:363-372 | a successful read consumes at least the closing `}` |
| CompileParse.BodyRoundTrip | compiler/compile_parse.py:363-372 | a balanced body and its closing `}` read back as the body space-joined, the `}` excluded, nested braces kept |
| CompileParse.BodyExact | compiler/compile_parse.py:363-372 | conversely, whatever is accepted is a balanced body and its closing `}` |
| CompileParse.LineStep | compiler/compile_parse.py:379-382 | `read_line` reads one statement, then the rest of the line |
| CompileParse.LineOfTwo | compiler/compile_parse.py:379-382 | a line of two statements gives both, in order |
| CompileParse.ReadStatement | compiler/compile_parse.py:134-154 | over the buffer: the result and the tokens left are those of the grammar function |
| CompileParse.ReadClass | compiler/compile_parse.py:176-193 | over the buffer, as the grammar function for classes |
| CompileParse.ReadMembers | compiler/compile_parse.py:185-188 | the member loop over the buffer, as the grammar function |
| CompileParse.ReadDeclare | compiler/compile_parse.py:216-238 | over the buffer, including the push-back of the name before `=` |
| CompileParse.ReadAssign | compiler/compile_parse.py:240-251 | over the buffer, as the grammar function for assignments |
| CompileParse.ReadMethod | compiler/compile_parse.py:278-287 | over the buffer, as the grammar function for methods |
| CompileParse.ReadConstructor | compiler/compile_parse.py:309-315 | over the buffer, as the grammar function for constructors |
| CompileParse.ReadArgs | compiler/compile_parse.py:331-347 | the parameter loop over the buffer, as the grammar function |
| CompileParse.ReadParam | compiler/compile_parse.py:333-336 | one pair over the buffer |
| CompileParse.ReadBody | compiler/compile_parse.py:363-372 | the brace-counting loop over the buffer, as the grammar function |
| CompileParse.ReadLine | compiler/compile_parse.py:379-382 | the statements of a line are those the grammar reads from its tokens |
| FrontendParse.Relabel | frontend/compile_parse.py:81 | running out of tokens becomes the IndexError of `list.pop(0)`; success and every other error are unchanged |
| FrontendParse.ParseHeader | frontend/compile_parse.py:81-90 | a successful read consumes the header; an empty list raises IndexError |
| FrontendParse.PlainHeader | frontend/compile_parse.py:81-90 | a first token that is not one of the three lower-case modifiers or `static` is the type or the name |
| FrontendParse.HeaderFlags | frontend/compile_parse.py:81-90 | private exactly when the first token is `private`; static exactly when `static` follows the optional modifier |
| FrontendParse.CaseOfModifiers | frontend/compile_parse.py:83 | a modifier in another letter case is the type here, while the compiler draft drops it as a modifier |
| FrontendParse.CapitalisedPrivate | frontend/compile_parse.py:83 | `Private` is such a modifier |
| FrontendParse.ParseStatement | frontend/compile_parse.py:81-100 | a successful read consumes at least one token |
| FrontendParse.ParseClass | frontend/compile_parse.py:122-143 | a successful read consumes at least one token |
| FrontendParse.ParseSuper | frontend/compile_parse.py:124-128 | without `extends` nothing is consumed and the superclass is None |
| FrontendParse.ParseMembers | frontend/compile_parse.py:133-138 | a successful read consumes the closing `}` |
| FrontendParse.ClassBraces | frontend/compile_parse.py:129-138 | a token other than `{` after the name raises `expected {`; running out before `}` raises `expected }` |
| FrontendParse.EmptyClass | frontend/compile_parse.py:334-337 | `class Ex {}` is a class named Ex with no members and no superclass |
| FrontendParse.ParseDeclare | frontend/compile_parse.py:166-185 | never consumes more than it has |
| FrontendParse.DeclareDispatch | frontend/compile_parse.py:172-185 | `;` ends a declaration, `=` pushes the name back, `(` starts a method, and any other token ends the declaration and is left in the list |
| FrontendParse.DeclareOpensMethod | frontend/compile_parse.py:177-180 | a valid name followed by `(` opens a method |
| FrontendParse.ParseAssign | frontend/compile_parse.py:189-193 | a successful read consumes tokens |
| FrontendParse.AssignGrammar | frontend/compile_parse.py:189-193 | the value is every token through the first `;`, space-joined, even when nothing precedes the `;`; the name is not checked |
| FrontendParse.AssignUnterminated | frontend/compile_parse.py:190-191 | without a `;` the loop runs off the end of the list with IndexError |
| FrontendParse.AssignValueText | frontend/compile_parse.py:344-347 | `x = 4;` stores the value `4 ;` |
| FrontendParse.ParseMethod | frontend/compile_parse.py:220-229 | a successful read consumes tokens |
| FrontendParse.MethodAnyName | frontend/compile_parse.py:220-229 | any name is accepted, while the compiler draft rejects a name that is not an identifier |
| FrontendParse.MethodParts | frontend/compile_parse.py:220-229 | a method is its parameters followed by its body |
| FrontendParse.EmptyMethod | frontend/compile_parse.py:349-353 | `foo() {}` is a method with no parameters and the empty body |
| FrontendParse.ParseConstructor | frontend/compile_parse.py:251-257 | a successful read consumes tokens |
| FrontendParse.ParseArgs | frontend/compile_parse.py:273-286 | a successful read consumes at least `)` and `{` |
| FrontendParse.ArgsTail | frontend/compile_parse.py:283-285 | succeeds exactly when `)` and `{` come next, checked together before either is taken |
| FrontendParse.ArgsAgree | frontend/compile_parse.py:273-286 | accepts exactly what the compiler draft accepts, with the same pairs |
| FrontendParse.ArgsGrammar | frontend/compile_parse.py:273-286 | accepted with (args, rest) if and only if the tokens are a valid list, `)`, `{`, then rest |
| FrontendParse.ArgsCloseErrors | frontend/compile_parse.py:283-284 | a wrong token in either closing place is the one error `method declaration is invalid`; a list ending after `)` raises IndexError |
| FrontendParse.CompilerCloseErrors | compiler/compile_parse.py:343-346 | the compiler draft reports the same two cases as `expected )` and `expected {` |
| FrontendParse.NoParams | frontend/compile_parse.py:274 | `) {` reads no parameters |
| FrontendParse.ParseBody | frontend/compile_parse.py:302-311 | a successful read consumes the closing `}` |
| FrontendParse.BodyGrammar | frontend/compile_parse.py:302-311 | a balanced body and its `}` read as the body space-joined |
| FrontendParse.BodyExact | frontend/compile_parse.py:302-311 | whatever is accepted is a balanced body and its `}` |
| FrontendParse.EmptyBody | frontend/compile_parse.py:302-311 | `}` straight away is the empty body |
| FrontendParse.TokenList.constructor | frontend/compile_parse.py:318 | the list holds the tokens given |
| FrontendParse.TokenList.PopFront | frontend/compile_parse.py:81 | `pop(0)` removes and returns the first token; IndexError on an empty list |
| FrontendParse.TokenList.At | frontend/compile_parse.py:94 | `tokens[i]` reads without removing; IndexError past the end |
| FrontendParse.TokenList.InsertFront | frontend/compile_parse.py:176 | `insert(0, t)` puts the token first |
| FrontendParse.PopInsert | frontend/compile_parse.py:174-176 | popping the first token and inserting it again gives the list back |
| FrontendParse.ReadStatement | frontend/compile_parse.py:81-100 | over the shared list: the result and the tokens left are those of the grammar function |
| FrontendParse.ReadClass | frontend/compile_parse.py:122-143 | as the grammar function for classes |
| FrontendParse.ReadMembers | frontend/compile_parse.py:132-138 | the member loop, as the grammar function |
| FrontendParse.ReadDeclare | frontend/compile_parse.py:166-185 | as the grammar function, including the push-back and the token left in place |
| FrontendParse.ReadAssign | frontend/compile_parse.py:189-193 | the value loop, as the grammar function |
| FrontendParse.ReadMethod | frontend/compile_parse.py:220-229 | as the grammar function for methods |
| FrontendParse.ReadConstructor | frontend/compile_parse.py:251-257 | as the grammar function for constructors |
| FrontendParse.ReadArgs | frontend/compile_parse.py:273-286 | the parameter loop, as the grammar function |
| FrontendParse.ReadParam | frontend/compile_parse.py:275-277 | both names are checked before either is taken |
| FrontendParse.ReadBody | frontend/compile_parse.py:302-311 | the brace-counting loop, as the grammar function |
| FrontendParse.ReadLine | frontend/compile_parse.py:318-321 | the statements of a line are those the grammar reads from its tokens |
| Members.NewMethod | compiler/compile_eval.py:73-79 | the method holds one parameter per (type, name) pair, in order, with the name, type and body given |
| Members.ParamsRoundTrip | compiler/compile_eval.py:76-78 | the parameters give back the pairs they were built from; each starts unset, neither static nor private |
| Members.IsConstructor | compiler/compile_eval.py:81-83 | a method is a constructor exactly when its name and its type are each None or empty |
| Members.ConstructorIff | compiler/compile_eval.py:81-83 | a method is a constructor exactly when neither its name nor its type is truthy; a record with no name and no type is one; a non-empty name is not |
| CompileEval.DeclareFacts | compiler/compile_eval.py:147-152 | a declaration fails exactly when the name is already a field; otherwise it adds exactly that field, unset, with its type and flags, and changes nothing else |
| CompileEval.AssignFacts | compiler/compile_eval.py:163-165 | an assignment fails exactly when the name is not a field; otherwise it sets that field's value and changes nothing else |
| CompileEval.Overloading | compiler/compile_eval.py:179-188 | a second method with the same name and number of parameters is rejected; with another number both are kept |
| CompileEval.ConstructorFacts | compiler/compile_eval.py:201-206 | a constructor fails exactly when its name is not the class's; the stored record is a constructor with the given parameters; a later one with the same count replaces it |
| CompileEval.EvalBodyAppend | compiler/compile_eval.py:123-132 | evaluating a body `a + b` is evaluating `a`, then `b` on the tables `a` left |
| CompileEval.NestedClassIgnored | compiler/compile_eval.py:123-132 | a class statement inside a class body changes nothing |
| CompileEval.RedeclaredField | compiler/compile_eval.py:147-148 | declaring, assigning and declaring again the same field fails with `already defined` |
| CompileEval.ClassObj.constructor | compiler/compile_eval.py:108-113 | the name, the private flag and the superclass are set and all three tables are empty |
| CompileEval.ClassObj.EvalDeclare | compiler/compile_eval.py:147-152 | on success the tables become those of the declaration rule; on failure they are unchanged |
| CompileEval.ClassObj.EvalAssign | compiler/compile_eval.py:163-165 | as the assignment rule |
| CompileEval.ClassObj.EvalMethod | compiler/compile_eval.py:179-188 | as the method rule |
| CompileEval.ClassObj.EvalConstructor | compiler/compile_eval.py:201-206 | as the constructor rule |
| CompileEval.ClassObj.EvalClass | compiler/compile_eval.py:122-132 | the loop leaves the tables the body's evaluation gives and reports its first error |
| CompileEval.NewClassObj | compiler/compile_eval.py:107-114 | a statement that is not a class fails the assertion; otherwise the object has the class's name and flag, the superclass defaulting to Object, and the tables of its body, or the body's first error escapes |
| Structures.Variable.constructor | interface/structures.py:20-25 | name, type and flags as given, value None |
| Structures.Variable.Clone | interface/structures.py:27-30 | a new variable with the same name, type, flags and value |
| Structures.StoreConstructorAsWritten | interface/primitives.py:88-91 | as written, the test reads the bound method, which is always true, so every record is stored (the same code as interface/structures.py:105-109) |
| Structures.NamedMethodAccepted | interface/structures.py:105-109 | as written, a method with a name and a type, which is not a constructor, is stored as one |
| Structures.StoreConstructorFacts | interface/structures.py:105-109 | with `is_constructor()` called, a record is stored exactly when it is a constructor, under its number of parameters, replacing only that entry; anything else raises `Not a valid constructor` |
| Structures.ClassObj.constructor | interface/structures.py:72-81 | the new class is public, extends Object and has no fields, methods or constructors |
| Structures.ClassObj.DeclareVar | interface/structures.py:83-87 | a name already a field raises `already defined` and changes nothing; otherwise the variable object itself becomes that field; nothing else changes |
| Structures.ClassObj.AssignVar | interface/structures.py:90-94 | an undeclared name raises `not defined`; otherwise that variable's value is set in place and only that variable changes |
| Structures.ClassObj.DeclareMethod | interface/structures.py:96-103 | a taken (name, number of parameters) key raises and changes nothing; otherwise the method is stored under it; nothing else changes |
| Structures.ClassObj.DeclareConstructor | interface/structures.py:105-109 | as written: never raises; the constructors become those the as-written rule gives |
| Structures.ClassObj.DeclareConstructorChecked | interface/structures.py:105-109 | with the call made: the constructors become those of the corrected rule, or the error leaves them unchanged |
| Structures.ClassObj.Private | interface/structures.py:111-122 | without an argument returns the flag and changes nothing; with one sets the flag and returns None |
| Structures.ClassObj.Superclass | interface/structures.py:124-135 | without an argument returns the superclass and changes nothing; with one sets it and returns None |
| Structures.CloneFields | interface/structures.py:175-177 | a new, distinct variable for every field, each with the same contents as the original |
| Structures.Instance.constructor | interface/structures.py:168-177 | the instance has the class's field names, each a fresh copy of the class's variable, no two shared |
| Structures.Instance.GetAttr | interface/structures.py:179-194 | the instance's own variable of that name, or the AttributeError `has no variable called` |
| Structures.Instance.SetAttr | interface/structures.py:196-209 | sets only that variable, or raises the AttributeError when the name is not a field |
| Structures.Instance.GetMethod | interface/structures.py:211-237 | the class's own name looks up a constructor by number of arguments; any other name a method by (name, count); each miss raises its own AttributeError |
| Structures.Instance.GetItem | interface/structures.py:239-252 | a pair looks up a method, a name a variable, and a tuple of another length fails when `getattr` builds its message |
| Structures.Instance.SetItem | interface/structures.py:254-263 | a tuple key raises `Can't re-define a method`; a name is set as `setattr` sets it |
| Structures.SeparateInstances | interface/structures.py:155-177 | setting a field of one instance changes neither the class's variables nor those of another instance of the class |
| InternalClasses.AttributePlacement | main/compile_eval.py:69-79 | a field goes to the static table exactly when it is static, holding the draft's blank value (`''` here, None in frontend/www/compile_eval.py:66-69), replacing any entry of that name; nothing else changes |
| InternalClasses.UpdateTarget | main/compile_eval.py:82-91 | an update writes the static entry when there is one, otherwise the instance entry, and raises KeyError when there is neither; only that entry's value changes |
| InternalClasses.LaterMemberWins | main/compile_eval.py:94-99 | a second method with the same name and number of parameters, or a second constructor with the same count, silently replaces the first |
| InternalClasses.EvalBodyAppend | main/compile_eval.py:108-116 | evaluating a body `a + b` is evaluating `a`, then `b` on what `a` left, unless `a` raised |
| InternalClasses.MismatchKeepsEarlier | main/compile_eval.py:139-142 | a constructor named after another class raises TypeError, stops the body and keeps the members before it |
| InternalClasses.Registry.constructor | main/compile_eval.py:45 | the registry starts empty |
| InternalClasses.Registry.Reset | main/compile_eval.py:48-53 | `reset_classes` leaves the registry empty |
| InternalClasses.InternalClass.constructor | main/compile_eval.py:57-65 | the name is the class's and all four tables are empty |
| InternalClasses.InternalClass.AddAttribute | main/compile_eval.py:69-79 | the tables become those of the placement rule |
| InternalClasses.InternalClass.UpdateAttribute | main/compile_eval.py:82-91 | the tables become those of the update rule, or KeyError leaves them unchanged |
| InternalClasses.InternalClass.AddMethod | main/compile_eval.py:94-95 | the method entry is written under (name, number of parameters) |
| InternalClasses.InternalClass.AddConstructor | main/compile_eval.py:98-99 | the constructor entry is written under its number of parameters |
| InternalClasses.InternalClass.EvalConstructor | main/compile_eval.py:139-142 | a mismatched name raises TypeError and changes nothing; otherwise the constructor is added |
| InternalClasses.InternalClass.EvalStatement | main/compile_eval.py:109-116 | one body dictionary is dispatched on its `op`, and an unknown op is skipped |
| InternalClasses.InternalClass.EvalClass | main/compile_eval.py:101-116 | the class enters the registry under its name before its body runs, and the tables become those of the body's evaluation |
| InternalClasses.NewInternalClass | main/compile_eval.py:57-66 | a new class object, registered under its name, holding its evaluated body |
| InternalClasses.ProcessParams | main/compile_eval.py:28-36 | one `type name` text per parameter, in order |
| InternalClasses.ParamTextWords | main/compile_eval.py:34-35 | such a text splits back into its type and its name when neither is empty or holds a space |
| InternalClasses.ExternalClass.constructor | frontend/www/compile_eval.py:146-196 | the name and every static and instance field are copied as (value, type, name) without evaluation; no method is copied |
| InternalClasses.CopyAttributes | frontend/www/compile_eval.py:186-196 | the copy has the same field names, each the (value, type, name) triple of its field |
| Constants.PythonSpellings | interpreter/constants.py:3 | the Python spellings, one per Java spelling |
| Constants.SpellingsSwapSides | interpreter/constants.py:3-4 | the reverse map's keys are exactly the forward map's values and its values exactly the forward keys |
| Constants.SpellingsInverse | interpreter/constants.py:3-4 | the reverse map undoes the forward one, in both directions |
| Constants.TypeClasses | interpreter/constants.py:9-21 | the integer, floating and string type classes are disjoint and inside TYPES; boolean is in none of them |
| Constants.KeywordContents | interpreter/constants.py:22 | KEYWORDS holds every type, `return`, `while`, `for` and both spellings of every operator and literal, nineteen in all |
| Constants.ContinueKeywords | interpreter/constants.py:7 | exactly `for`, `while` and `if` keep a block open |
| Util.ParseValueAsWrittenFacts | interpreter/util.py:28-36 | the code raises exactly on float text, with UnboundLocalError; integer text gives the integer, other text comes back unchanged, None and ints are kept, and bools and floats become ints |
| Util.ParseValue | interpreter/util.py:25-36 | as documented, `parse_value` never raises; the lemmas below give its value for integer text, float text and other words |
| Util.DecimalTextIsInt | interpreter/util.py:29 | the decimal text of any integer is accepted by `int()` and read back as that integer |
| Util.PointIsFloat | interpreter/util.py:29-32 | digits, a point and digits are refused by `int()` and accepted by `float()` |
| Util.PointValue | interpreter/util.py:32 | `float()` of digits, a point and digits is the integer part plus the fraction |
| Util.IntTextNotFloat | interpreter/util.py:28-33 | text `int()` accepts never reaches the `float()` branch as float text |
| Util.ParseValueDrafts | interpreter/util.py:25-36 | the code and its documentation differ exactly on float text, where the code raises UnboundLocalError |
| Util.ParseValueRoundTrip | interpreter/util.py:28-29 | the decimal text of any integer parses back to that integer |
| Util.ParseIntExample | interpreter/util.py:18-19 | `"4"` gives 4, and None gives None |
| Util.PointParsed | interpreter/util.py:31-36 | digits, a point and digits: as written UnboundLocalError, as documented the float of that decimal |
| Util.ParseFloatExample | interpreter/util.py:20-21 | `"4.0"` gives 4.0 as documented, while the code raises |
| Util.WordKept | interpreter/util.py:33-34 | a word that is no number comes back unchanged |
| Util.ParseWordExample | interpreter/util.py:22-23 | `"string"` comes back unchanged |
| Util.FlattenAppend | interpreter/util.py:38-47 | flattening distributes over concatenation |
| Util.FlattenLeaves | interpreter/util.py:38-47 | a flat list flattens to itself |
| Util.FlattenLength | interpreter/util.py:38-47 | every value of the nested list appears once in the result |
| Util.FlattenExample | interpreter/util.py:40-41 | the documented nested list flattens to `[1, 2, 3, 4, 3, 4]`, and `[]` to `[]` |
| Util.NonEmptyAppend | main/javarepl.py:209-215 | dropping the empty strings distributes over concatenation |
| Util.NonEmptyFacts | main/javarepl.py:209-215 | exactly the empty strings go: everything kept is non-empty and every non-empty string stays |
| Util.NonEmptyKeeps | main/javarepl.py:209-215 | dropping only removes |
| Variables.Variable.constructor | interpreter/variable.py:10-13 | name, type and the parsed value as given |
| Variables.Variable.New | interpreter/variable.py:10-13 | `parse_value` as the code writes it: float text raises UnboundLocalError and no variable is made; any other value gives a new variable holding the parsed value, with the name and type given |
| Variables.Variable.NewDocumented | interpreter/variable.py:10-13 | the same construction with `parse_value` as documented: it never raises, and float text gives the float |
| Variables.Variable.SetValue | interpreter/variable.py:30-31 | the value is replaced |
| Variables.Variable.Str | interpreter/variable.py:18-19 | a string value is itself, None is `Variable not initialized`, and any other value makes `str()` raise |
| Variables.NewVariableExamples | interpreter/variable.py:10-13 | a variable made from None is unset; one made from the text of an integer holds the integer |
| Variables.FloatTextVariable | interpreter/variable.py:13 | `Variable("4.0", ...)` raises UnboundLocalError, where the documented `parse_value` would give a variable holding 4.0 |
| Assign.LoneEqAt | main/assign.py:28 | the split pattern matches exactly three characters whose middle one is an `=` with no comparison character before it and no `=` after it |
| Assign.ComparisonsNotSplit | main/assign.py:28 | text whose every `=` belongs to `==`, `<=`, `>=` or `!=` is not split |
| Assign.LoneEqSplit | main/assign.py:26-29 | a target without `=` and a right-hand side without a lone `=` split at the single ` = ` between them |
| Assign.SpacedWithoutEq | main/assign.py:27 | text without `=` passes through the padding untouched |
| Assign.TokenizeAssignment | main/assign.py:26-29 | the split gives at least one piece, and a statement without `=` is one piece, which the assignment code then refuses |
| Assign.SpacedAssignment | main/assign.py:27 | the padding leaves a single ` = ` alone when the target has no `=` and ends in neither whitespace nor a comparison character, and the value has no `=` and does not start with whitespace |
| Assign.TokenizeAssignmentSplits | main/assign.py:26-29 | such a statement `a = b` splits into exactly the target `a` and the value `b` |
| Assign.SpacedComparison | main/assign.py:27 | the padding turns `a = x<=y` into `a = x <= y`: both `=` are padded, then `< =` is joined back into ` <= ` and no other pattern matches |
| Assign.TokenizeComparison | main/assign.py:26-29 | `a = x<=y` splits into `a` and `x <= y`: the `=` of a comparison in the value is not taken for an assignment |
| Assign.ComparisonExample | main/assign.py:18 | the documented example: `"a = b<=c"` gives `["a", "b <= c"]` |
| Assign.TypedInitialiser | main/assign.py:49-60 | `t n = e`, for single words `t` and `n` and an initialiser `e` without `=` or edge whitespace, splits into the declaration of `n` with type `t` and the value `e`, and the rebuilt `n = e` splits back into `n` and `e` |
| Assign.TypedInitialiserExample | main/assign.py:49-60 | `int x = 5` declares an `int` named `x` with the initialiser `5` |
| Assign.SplitDeclaration | main/assign.py:79-89 | succeeds exactly when the declaration has one or two words; any other count raises InvalidDeclaration |
| Assign.SplitBareName | main/assign.py:82-83 | one word is an assignment to that name, with no type |
| Assign.SplitTypedName | main/assign.py:84-85 | `type name` gives that type and that name |
| Assign.SplitThreeWords | main/assign.py:86-87 | three words are refused |
| Assign.CurrentFrame | main/assign.py:208-210 | the top frame, or the assertion `stack has length 0!` on an empty stack |
| Assign.VariableFrame | main/assign.py:224-230 | fails exactly on an empty stack; otherwise finds the name exactly when the top frame or the instance variables hold it, the top frame first |
| Assign.Lookup | main/javarepl.py:41-45 | fails exactly when the stack is empty or neither the top frame nor the instance variables hold the name |
| Assign.LookupOrder | main/javarepl.py:602-608 | the top frame shadows the instance variables; a name in neither is a JavaNameError; an empty stack fails first |
| Assign.LookupIgnoresOuterFrames | main/javarepl.py:602-608 | frames below the top one change no lookup |
| Assign.PutLookup | main/assign.py:118-122 | after a binding is stored, the name looks up to it, unless the top frame shadows it, and no other name changes |
| Assign.PopUndoesPut | main/assign.py:179 | popping a name that was just added restores the environment |
| Assign.Declared | main/assign.py:107-122 | a declaration keeps the number of frames |
| Assign.DeclaredFacts | main/assign.py:107-122 | a typed declaration succeeds exactly when the type is known and the name is visible in neither the top frame nor the instance variables; then the name looks up to an unset variable of that type and nothing else changes |
| Assign.DeclaredIsPut | main/assign.py:118-122 | the declared environment is the old one with the new unset binding in the top frame, or among the instance variables when global |
| Assign.DeclaredRefusals | main/assign.py:108-112 | a bare name is refused as a declaration, and an empty stack fails the frame assertion |
| Assign.AcceptsByClass | main/assign.py:174-197 | bools go only to boolean, ints only to the integer types, floats only to the floating types, strs only to the string types; None to anything |
| Assign.CharNeverTakesStr | main/assign.py:189-197 | as written, a `char` variable takes no str at all |
| Assign.CharTakesOneCharStr | main/javarepl.py:567-575 | as corrected, a `char` variable takes exactly the one-character strs, and String takes every str |
| Assign.DraftsDifferOnlyForChar | main/javarepl.py:572 | the two copies disagree only on a str for a `char` variable |
| Assign.Checked | main/assign.py:174-197 | passes exactly when the stack is non-empty and the type takes the value; a refusal leaves the environment unchanged unless the variable was just declared |
| Assign.CheckedRollsBack | main/assign.py:178-179 | a refused value for a just-declared variable removes exactly that variable from the frame it was found in |
| Assign.Stored | main/javarepl.py:534-536 | the REPL copy stores a str inside double quotes, the assign module stores the value as it is |
| Assign.UpdateNamed | main/assign.py:145-161 | an update keeps the number of frames |
| Assign.Updated | main/assign.py:140-144 | a statement that does not split in two raises InvalidAssignment and changes nothing |
| Assign.Assigned | main/assign.py:49-52 | a statement that does not split in two raises InvalidAssignment and changes nothing |
| Assign.UpdateNamedFacts | main/assign.py:145-161 | a visible name whose value its type takes is updated where it was found; a refused value changes nothing unless just declared |
| Assign.UpdateUnboundName | main/assign.py:146-149 | an invisible name raises InvalidAssignment before the expression is evaluated and changes nothing |
| Assign.RefusedInitialiserRestores | main/assign.py:174-197 | declaring a fresh variable and refusing its first value gives back the environment before the declaration |
| Assign.AssignedDeclares | main/assign.py:55-62 | with a typed left side, the statement is the declaration followed by the update of `name = rhs` as just declared |
| Assign.UpdatedSplits | main/assign.py:142-145 | an update statement that splits into a name and an expression updates that name with that expression |
| Assign.TakenInitialiserBinds | main/assign.py:118-161 | declaring a fresh variable and taking its first value binds the name in the top frame, which gains only that name |
| Assign.AssignedAsUpdate | main/assign.py:49-62 | `type name = expr` for a fresh name of a known type is the declaration followed by the update of the new variable |
| Assign.FailedInitialiserLeavesNoBinding | main/assign.py:49-62 | `type name = expr` whose value the type refuses raises InvalidDatatype and leaves the environment as it was |
| Assign.DeclaredInitialiserBinds | main/assign.py:49-62 | `type name = expr` whose value the type takes binds the name to that value, stored as the copy stores it, and adds only that name to the top frame |
| Assign.Environment.constructor | main/javarepl.py:20-21 | one empty frame and no instance variables |
| Assign.Environment.DeclareVariable | main/assign.py:107-122 | the live frames become those of the declaration, or the error leaves them unchanged |
| Assign.Environment.VerifyResultDatatype | main/assign.py:174-197 | the environment and outcome are those of the type check, including the rollback |
| Assign.Environment.UpdateNamedVariable | main/assign.py:145-161 | as the update once the target is known |
| Assign.Environment.UpdateVariable | main/assign.py:140-161 | as the update rule |
| Assign.Environment.AssignVariable | main/assign.py:49-62 | as the assignment rule |
| Conditionals.HeaderScan | main/javarepl.py:346-353 | on success the cursor ends on a `) {` beyond where it started, with no `} else if (` after it; otherwise the error is the unclosed header |
| Conditionals.HeadersDiffer | main/javarepl.py:348-352 | a `) {` and a `} else if (` never start at the same index |
| Conditionals.HeaderScanOk | main/javarepl.py:346-353 | the header loop succeeds exactly when a `) {` lies beyond the cursor and every later `} else if (` is followed by one |
| Conditionals.SyntaxAccepts | main/javarepl.py:338-353 | an accepted block starts with `if (`, has no `else if {`, has a `) {` and closes every `} else if (` header |
| Conditionals.SyntaxRefuses | main/javarepl.py:338-350 | an empty block fails the length assertion, then a block not starting with `if (`, then `else if {`, then an unclosed header, each with its own error |
| Conditionals.SyntaxElse | main/javarepl.py:354-365 | True means a `} else {` followed by a `}`; a block without `} else {` gives False; False means there is a `}` |
| Conditionals.VerifyIfElseSyntax | main/javarepl.py:330-365 | the two-cursor scan gives exactly the syntax verdict |
| Conditionals.FlattenedSplits | main/javarepl.py:282 | flattening the mapped splits gives the pieces of every token, tokens in order |
| Conditionals.InsertTrue | main/javarepl.py:284-285 | `insert(-1, "True")` puts True just before the last token, or makes it the only token of an empty list; nothing else moves |
| Conditionals.EvensOdds | main/javarepl.py:290-295 | every token goes to exactly one list by the parity of its index, and the lists have equal length exactly when the number of tokens is even |
| Conditionals.SplitBranches | main/javarepl.py:290-295 | the loop yields the even-indexed tokens as conditions and the odd-indexed ones as bodies |
| Conditionals.FalsePassedOver | main/javarepl.py:300-305 | conditions that evaluate to False are passed over |
| Conditionals.FirstTrueNone | main/javarepl.py:300-307 | no body is chosen exactly when every condition is False |
| Conditionals.FirstTrueSome | main/javarepl.py:300-305 | a chosen body belongs to a True condition preceded only by False ones |
| Conditionals.SelectBranch | main/javarepl.py:300-307 | the condition loop gives the first True condition's body, None, or the error of a non-bool condition |
| Conditionals.ClosedPiecesSplit | main/javarepl.py:287 | no piece of the `}` split holds a `}` |
| Conditionals.BranchTokensClean | main/javarepl.py:281-287 | every token of a block is non-empty and holds no `}` |
| Conditionals.OddsAreTokens | main/javarepl.py:293-295 | every body is one of the tokens |
| Conditionals.ChooseBodyFacts | main/javarepl.py:297-307 | an odd number of tokens fails the length assertion; otherwise no body means every condition is False, and a chosen body follows the first True condition |
| Conditionals.HandleConditionalFacts | main/javarepl.py:276-307 | a refused block's error escapes; otherwise the body is the one chosen from the block's tokens, non-empty and without `}` |
| Conditionals.HandleConditionalStatements | main/javarepl.py:276-307 | the whole procedure gives exactly the result of the conditional rule |
| ReplMain.TokenizedSplits | main/javarepl.py:198-207 | outside a block, the statements are the non-empty pieces between `;`s, the last piece stays pending, and pieces and pending joined with `;` give the pending text, a space and the stripped line |
| ReplMain.TokenizedBlocks | main/javarepl.py:186-197 | once a control keyword is seen, lines are buffered and nothing runs; an empty line hands over everything buffered as one statement and ends the block |
| ReplMain.RemoveEmpty | main/javarepl.py:209-215 | the countdown that pops empty strings leaves exactly the non-empty ones, in order |
| ReplMain.Repl.constructor | main/javarepl.py:18-23 | nothing pending and no block open |
| ReplMain.Repl.Tokenize | main/javarepl.py:182-207 | the globals and the statements returned are those of the tokenizing rule |
| ReplMain.JavaForm | main/javarepl.py:232-235 | a Python spelling comes back as the Java spelling that maps to it, a bool as the Java literal whose Python spelling is its `str()`, and every other value unchanged |
| ReplMain.JavaFormFacts | main/javarepl.py:232-235 | a Python spelling goes back to its Java spelling, booleans print as `true` and `false`, and every other value is left alone |
| ReplMain.LoopedExit | main/javarepl.py:636-637 | a loop that ends normally ends on a falsy condition |
| ReplMain.LoopedFuel | main/javarepl.py:636-637 | the step bound only cuts off: a loop that finished within it finishes the same way with any larger bound |
| ReplMain.LoopedKeepsFrames | main/javarepl.py:636-637 | the loop pushes no frame |
| ReplMain.LoopedPass | main/javarepl.py:636-637 | a pass that completes under a truthy condition hands the loop on to the next pass |
| ReplMain.LoopedRaise | main/javarepl.py:636-637 | a pass that raises ends the loop with its partial effects |
| ReplMain.ForParts | main/javarepl.py:660-665 | a block that is not cut into a header and a body raises IndexError, and a header without exactly three parts raises ValueError |
| ReplMain.Unbound | main/javarepl.py:678-679 | after a completed loop the loop variable is popped from the frame it is found in, and the number of frames stays |
| ReplMain.HandledForFacts | main/javarepl.py:657-681 | after a for loop that completes, the loop variable is gone from the top frame, and the condition was falsy just before |
| ReplMain.HandledWhileFacts | main/javarepl.py:625-639 | a while loop whose statements keep the number of frames keeps it, and one that completes ends on a falsy condition |
| ReplMain.Apply | main/javarepl.py:637 | the environment becomes what the statements left |
| ReplMain.HandleWhile | main/javarepl.py:625-639 | on the REPL's environment, the new state and outcome are those of the while rule |
| ReplMain.RunWhileLoop | main/javarepl.py:636-637 | the loop gives the state and outcome of the bounded loop rule |
| ReplMain.ForPass | main/javarepl.py:674-675 | one pass runs the statements, then the update through `assign_variable` |
| ReplMain.RunForLoop | main/javarepl.py:673-675 | the loop gives the state and outcome of the bounded loop rule with that pass |
| ReplMain.PopLoopVariable | main/javarepl.py:678-679 | the loop variable is popped as the rule says |
| ReplMain.HandleFor | main/javarepl.py:657-681 | on the REPL's environment, the new state and outcome are those of the for rule |
| InterpRepl.LookupDraftsAgree | interpreter/javarepl.py:17-32 | with a non-empty stack this draft finds every name in the same frame as main/javarepl.py; on an empty stack it raises IndexError where that one fails its assertion |
| InterpRepl.InterpVariableFrame | interpreter/javarepl.py:17-26 | an empty stack raises IndexError; otherwise a place is found exactly when the top frame or the instance variables hold the name, the top frame first, and the place holds it |
| InterpRepl.InterpLookup | interpreter/javarepl.py:28-32 | an empty stack raises IndexError; the top frame's binding shadows the instance variables'; a name in neither raises JavaNameError |
| InterpRepl.InterpLookupOrder | interpreter/javarepl.py:20-32 | the top frame shadows the instance variables, and a name in neither is a JavaNameError |
| InterpRepl.SplitPendingJoins | interpreter/javarepl.py:103-115 | the statements and the new pending text, joined with `;`, give back the old pending text, a space and the stripped line, and no piece holds a `;` |
| InterpRepl.TokenizeDrafts | interpreter/javarepl.py:103-115 | outside a block, main/javarepl.py keeps the same pending text and returns the non-empty ones of the statements this draft returns |
| InterpRepl.ExpressionDelimsValid | interpreter/javarepl.py:67-68 | the padded characters are the four brackets of DELIMITERS, all distinct |
| InterpRepl.ExpressionTokensShape | interpreter/javarepl.py:64-69 | every token is non-empty and free of whitespace, every bracket is a token of its own, and the tokens together are the expression's non-whitespace characters in order |
| InterpRepl.PaddedWithoutDelims | interpreter/javarepl.py:67-68 | text without brackets is not padded |
| InterpRepl.RunEnd | interpreter/javarepl.py:82 | the `[\w\s]` run from a position ends at the first character outside it |
| InterpRepl.AssignShapeMatches | interpreter/javarepl.py:82 | the matcher finds a match exactly when the pattern matches at the start, for any class before `=` that excludes `=` and no word or space character |
| InterpRepl.SimpleAssignment | interpreter/javarepl.py:82-83 | `name = value` is dispatched to the assignment code |
| InterpRepl.ComparisonTakenForAssignment | interpreter/javarepl.py:82-83 | as written, `x <= v`, `x >= v` and `x != v` are dispatched to the assignment code |
| InterpRepl.ComparisonNotAssignment | interpreter/javarepl.py:82 | with `<`, `>` and `!` also excluded before the `=`, no comparison `x == v`, `x <= v`, `x >= v` or `x != v` matches the assignment pattern |
| InterpRepl.NoEqualsNoMatch | interpreter/javarepl.py:82 | text without `=` never matches the assignment pattern |
| InterpRepl.TypedNameDeclares | interpreter/javarepl.py:84-85 | `type name` with a known type is dispatched to the declaration code |
| InterpRepl.Session.constructor | interpreter/javarepl.py:12-13 | nothing pending and an empty memory |
| InterpRepl.Session.Tokenize | interpreter/javarepl.py:103-115 | the pending text and the statements are those of the splitting rule; the memory is unchanged |
| InterpRepl.Session.TokenizeOneExpression | interpreter/javarepl.py:64-69 | the expression is appended to the memory and its tokens are returned |
| InterpRepl.Session.Classify | interpreter/javarepl.py:76-89 | the stripped statement is appended to the memory and gets the kind the dispatch rule gives it, with the code's `[^=]` assignment test, so `x <= 5` is dispatched as an assignment |

## Left out

- Printing, `print_vars`, `print_fields`, the `__str__` methods of the class tables, `handle_println` and `eval_commands`. These only produce output.
- `read_eval_print_loop`, `repl` and `input()`. When the compiler's `Buffer` runs out, it would read another line; the model reports the end of input instead (`EndOfInput`).
- `evaluate_expression` (variable substitution, operator respelling, casts, and Python `eval`). It is the parameter `ev`, an arbitrary function from the expression text and the environment to a value or an error.
- `parse_eval` and `analyze`. They are the parameter `run` wherever a loop body is executed. What that leaves out is stated under `ReplMain.HandleWhile` below.
- `handle_constructor`, `initialize`, `get_method` of the compile-eval drafts, and `handle_switch_statements`. They sit outside the modelled core, and `get_method` indexes a dict with a list, which always raises.
- `validate_while_loop_syntax` and `validate_for_loop_syntax`. Both return at once, so they are no-ops and not modelled.
- ReplMain.Looped: each loop runs for at most `fuel` passes and then ends with `OutOfFuel`. A loop that never ends is not modelled, and `LoopedFuel` shows that the bound only cuts off.
- Util.IntText: `int()` text is an optional sign and ASCII digits. The underscores Python allows between digits (`1_000`) and non-ASCII decimal digits are not modelled, so `parse_value` treats such text as a word.
- Buffers.Buffer.Str: the list display escapes exactly as Python does up to U+00FF. Characters above that which `str.isprintable` rejects, such as U+200B, are shown raw, because the Unicode character database is not modelled.
- Buffers.Buffer.Repr: the same escaping limit as `Buffers.Buffer.Str`.
- Util.FloatOf: floats are exact reals written in positional notation. Exponents, `inf`, `nan` and rounding are not modelled.
- Util.ParseValueAsWritten: because of that, text such as `1e5`, `inf` or `nan` is not float text in the model. Python's `float()` accepts it, so `parse_value` as written raises UnboundLocalError on it, while the model returns it unchanged as a string.
- `\w` and `\s` in the regular expressions are taken over ASCII and the whitespace characters Python's `str.isspace` accepts among them. Unicode word characters are not modelled.
- Frames hold `Binding` records (type and value), not shared `Variable` objects. The environment code never keeps two references to one variable, so no aliasing is lost.
- interpreter/conditionals.py (and interpreter/loops.py) cannot be imported as written: they import `clean_up_list_elems` from interpreter/util.py, which defines only `parse_value` and `flatten_list`, so the import raises ImportError. The modelled conditionals are those of the copy in main/javarepl.py:276-365, which differs from interpreter/conditionals.py in that import and in passing `instance_vars` and `stack` to `evaluate_expression`.
- main/util.py, where main/javarepl.py finds `clean_up_list_elems` and `flatten_list`, is not part of this model. `clean_up_list_elems` is taken to drop the empty strings, as `remove_empty` does, and `flatten_list` to be that of interpreter/util.py.
- main/constants.py is not part of this model. The interpreter's tables come from interpreter/constants.py.
- interpreter/assign.py is not part of this model. The REPL of interpreter/javarepl.py is modelled up to the choice of the code it dispatches to (`InterpRepl.Session.Classify`).
- `THING_TO_REPLACE`, `INITIALIZE_VALS` and `UNDEFINED_PARAM` are not used by the modelled code.
- Conditionals.ChooseBodyFacts: it is not proved that every block accepted by `verify_if_else_syntax` yields as many conditions as bodies. An unequal split is modelled as the failed length assertion.
- The `"class Ex { int x = 4; }"` tokenization and whole-class parses are stated generically rather than on the literal strings, because the literal versions are too costly for the verifier. `TokensShape` stands for the tokenization example. The `"a = b<=c"` example of `tokenize_assignment_statement` is proved on its own text (`Assign.ComparisonExample`).
- Assign.TokenizeAssignment: its own contract covers the statements without `=`. Statements with `=` are covered by `Assign.TokenizeAssignmentSplits` (one ` = ` between a target and a value without `=`) and `Assign.TokenizeComparison` (a `<=` in the value). Other shapes, such as several assignments, `==`, `>=` or `!=` in the value, or whitespace around `=` other than single spaces, are not stated.
- ReplMain.HandleWhile: each pass of the body is `run(statements, env)`, a fixed function of the body text and the environment. In the source a pass goes through `parse_eval`, `parse` and `tokenize` (main/javarepl.py:178-201 and 244-245), which read and write the globals `unevaled` and `continue_prompt`. A body that contains `if`, `for` or `while` anywhere, even inside a word, is buffered instead of run and leaves `continue_prompt` set. The text after the body's last `;` stays pending and is put in front of the next pass's statements. That state carried between passes is not modelled.
- ReplMain.HandleFor: its body passes are modelled like those of `ReplMain.HandleWhile`, so the same interaction with `unevaled` and `continue_prompt` is not modelled.
- The test files compiler/parse_test.py and interface/struct_test.py are covered only where their assertions are stated as lemmas (the `*Example` lemmas and the generic lemmas above).

## Findings

| source | as written | input that shows it | evidently intended | confidence | as-written member | corrected member |
|---|---|---|---|---|---|---|
| interface/structures.py:107 | `if not constructor.is_constructor:` tests the bound method, which is always truthy, so the check never fires | `declare_constructor(Method('foo', 'int', [], ''))` stores an ordinary method as a constructor | call `is_constructor()` and raise `Not a valid constructor` for a named method | high; not executed | Structures.NamedMethodAccepted | Structures.StoreConstructorFacts |
| interpreter/util.py:28-36 | when `int()` fails and `float()` succeeds, `to_return` is never assigned | `parse_value("4.0")` raises UnboundLocalError | return the float, as the documented example at interpreter/util.py:20-21 says | high; not executed | Util.ParseFloatExample | Util.PointParsed |
| main/assign.py:189-197 | for a `char` variable, a one-character str passes the length test and then fails `!= STRING` | `char c = 'a'` (whose value evaluates to the str `a`) raises InvalidDatatype | a `char` takes exactly the one-character strs, as the copy at main/javarepl.py:567-575 does | high; not executed | Assign.CharNeverTakesStr | Assign.CharTakesOneCharStr |
| interpreter/javarepl.py:82 | the class `[^=]` before `=` lets `<`, `>` and `!` through | `x <= 5` is sent to `assign_variable` instead of being evaluated | the comparisons `<=`, `>=` and `!=` are evaluated | high; not executed | InterpRepl.ComparisonTakenForAssignment | InterpRepl.ComparisonNotAssignment |
