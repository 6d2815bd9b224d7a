/** Failure-compatible result types and the exceptions the interpreter can raise.
    Every Python exception the core raises is one constructor of Error; a function
    or method that can raise returns a Result or an Outcome instead. */
module Wrappers {

  /** The exception kinds raised by the parser, the class registries and the
      interpreter.  Messages are kept where the source builds a fixed one. */
  datatype Error =
    | SyntaxError(msg: string)          // parser and registry grammar violations
    | InvalidIdentifier(name: string)   // the SyntaxError "invalid identifier: '<name>'"
    | AlreadyDefined(name: string)      // the SyntaxError "<name> already defined"
    | NotDefined(name: string)          // the SyntaxError "<name> not defined"
    | MethodDefined(methodName: Option<string>, arity: nat)
                                        // the SyntaxError "<name> has already been defined with <n> arguments"
    | ConstructorMismatch               // the TypeError "Constructor does not match class"
    | NotAConstructor                   // the TypeError "Not a valid constructor"
    | MethodRedefinition                // the TypeError "Can't re-define a method"
    | TupleConcatenation                // the TypeError of `str + tuple`
    | NoVariable(cls: string, name: string)
                                        // the AttributeError "<cls> has no variable called <name>"
    | NoConstructor(cls: string, arity: nat)
                                        // the AttributeError "<cls> has no constructor of length <n>"
    | NoMethod(cls: string, name: string)
                                        // the AttributeError "<cls> has no method <name>"
    | KeyError                          // missing dictionary key
    | IndexError                        // pop from / index into an exhausted list
    | ValueError                        // tuple unpacking with the wrong arity
    | AssertionError(msg: string)       // a failed `assert` in the source
    | UnboundLocalError                 // a local read before any assignment
    | EndOfInput                        // the token buffer ran dry (no interactive refill)
    | InvalidAssignment                 // InvalidAssignmentException
    | InvalidDeclaration                // InvalidDeclarationException
    | InvalidDatatype                   // InvalidDatatypeException
    | JavaNameError                     // an unbound name
    | EmptyStack                        // the AssertionError "stack has length 0!"
    | NoFrame                           // the AttributeError of `None.pop`
    | StrNotString                      // the TypeError of a `__str__` that returns a non-string
    | InvalidIfElseBlock(fault: IfElseFault)
                                        // InvalidIfElseBlockException, by reason
    | Raised(kind: string)              // raised by the foreign expression evaluator
    | OutOfFuel                         // a loop ran longer than the step bound

  /** Why an if-else block was refused. */
  datatype IfElseFault =
    | NotIf                             // "0th word is NOT if"
    | ElseIfWithoutCondition            // "else if has no condition"
    | HeaderNotClosed                   // "if or else if NOT followed by ') {'"
    | BranchNotTerminated               // "else-if clause is not terminated with '}'"
    | ElseNotTerminated                 // "else clause not terminated with '}'"
    | NotABoolean                       // "Condition parsed was not a boolean expression"

  datatype Option<+T> = None | Some(value: T)

  /** A value or the exception that was raised instead. */
  datatype Result<+T> = Ok(value: T) | Err(error: Error) {
    predicate IsFailure() { Err? }
    function PropagateFailure<U>(): Result<U>
      requires Err?
    {
      Err(error)
    }
    function Extract(): T
      requires Ok?
    {
      value
    }
  }

  /** A check that either passes or raises; it propagates into any Result. */
  datatype Outcome = Pass | Fail(error: Error) {
    predicate IsFailure() { Fail? }
    function PropagateFailure<U>(): Result<U>
      requires Fail?
    {
      Err(error)
    }
  }

  function Check(cond: bool, e: Error): (o: Outcome)
    ensures o.Pass? <==> cond
  {
    if cond then Pass else Fail(e)
  }
}
