/** The REPL of main/javarepl.py: the statement splitter with its pending
    fragment and continuation prompt, `remove_empty`, `java_form`, and the
    while and for drivers.  Running a loop body is the REPL's own
    `parse_eval`, given here as the parameter `run`; evaluating a condition is
    Python's `eval`, the parameter `ev`.  A loop that never ends is cut off by
    a step bound `fuel`. */
module ReplMain {
  import opened Wrappers
  import opened PyText
  import opened Util
  import opened Constants
  import opened Assign
  import opened Conditionals

  // ---------------------------------------------------------------------------
  // tokenize and remove_empty.

  /** The globals `unevaled` and `continue_prompt`. */
  datatype Pending = Pending(unevaled: string, continuePrompt: bool)

  /** A control keyword occurs anywhere in the text, even inside a word. */
  predicate HasContinueKeyword(s: string) {
    exists j :: 0 <= j < |CONTINUE_KEYWORDS| && Contains(s, CONTINUE_KEYWORDS[j])
  }

  /** `tokenize(cur_read)`: the new state and the statements to run. */
  function Tokenized(st: Pending, curRead: string): (Pending, seq<string>) {
    var expressions := st.unevaled + " " + Strip(curRead);
    var continuing := st.continuePrompt || HasContinueKeyword(expressions);
    if continuing && curRead == "" then (Pending("", false), NonEmpty([expressions]))
    else if continuing then (Pending(expressions, true), [])
    else
      var pieces := SplitChar(expressions, ';');
      (Pending(pieces[|pieces| - 1], false), NonEmpty(pieces[..|pieces| - 1]))
  }

  /** Outside a block, the statements returned are the non-empty pieces
      before the last `;`, none holding a `;`, and the text after the last
      `;` stays pending: joined back with `;`, the pieces and the pending
      text give the pending text and the line. */
  lemma TokenizedSplits(st: Pending, curRead: string)
    requires !st.continuePrompt && !HasContinueKeyword(st.unevaled + " " + Strip(curRead))
    ensures var (st', out) := Tokenized(st, curRead);
      !st'.continuePrompt && ';' !in st'.unevaled
      && (forall x :: x in out ==> x != "" && ';' !in x)
      && (exists pieces :: NonEmpty(pieces) == out
            && Join(pieces + [st'.unevaled], [';']) == st.unevaled + " " + Strip(curRead))
  {
    var expressions := st.unevaled + " " + Strip(curRead);
    var pieces := SplitChar(expressions, ';');
    SplitCharJoin(expressions, ';');
    SplitCharPieces(expressions, ';');
    assert pieces[..|pieces| - 1] + [pieces[|pieces| - 1]] == pieces;
    NonEmptyFacts(pieces[..|pieces| - 1]);
    NonEmptyKeeps(pieces[..|pieces| - 1]);
    forall x | x in NonEmpty(pieces[..|pieces| - 1]) ensures ';' !in x {
      var i :| 0 <= i < |pieces| - 1 && pieces[..|pieces| - 1][i] == x;
      assert pieces[i] == x;
    }
  }

  /** Inside a block (a control keyword seen now or before), lines are
      buffered and nothing is returned until an empty line, which returns
      everything buffered as one statement and ends the block. */
  lemma TokenizedBlocks(st: Pending, curRead: string)
    requires st.continuePrompt || HasContinueKeyword(st.unevaled + " " + Strip(curRead))
    ensures curRead != "" ==>
      Tokenized(st, curRead) == (Pending(st.unevaled + " " + Strip(curRead), true), [])
    ensures curRead == "" ==>
      Tokenized(st, curRead) == (Pending("", false), [st.unevaled + " " + Strip(curRead)])
  {
    var expressions := st.unevaled + " " + Strip(curRead);
    assert expressions[|st.unevaled|] == ' ';
    NonEmptyFacts([expressions]);
  }

  /** Dropping the empty strings of a suffix, one element at a time. */
  lemma NonEmptyFrom(ls: seq<string>, w: nat)
    requires w < |ls|
    ensures NonEmpty(ls[w..]) == (if ls[w] == "" then [] else [ls[w]]) + NonEmpty(ls[w + 1..])
  {
    assert ls[w..][0] == ls[w] && ls[w..][1..] == ls[w + 1..];
  }

  /** The list as the countdown holds it at `w`, with `ls0[w]` kept or popped. */
  lemma CountdownStep(ls0: seq<string>, w: nat, rest: seq<string>)
    requires w < |ls0|
    ensures var ls := ls0[..w + 1] + rest;
      ls[w] == ls0[w] && ls[..w] + ls[w + 1..] == ls0[..w] + rest
      && ls == ls0[..w] + ([ls0[w]] + rest)
  {
    assert ls0[..w + 1] == ls0[..w] + [ls0[w]];
  }

  /** `remove_empty`: a countdown over the list, popping every empty string. */
  method RemoveEmpty(ls0: seq<string>) returns (ls: seq<string>)
    ensures ls == NonEmpty(ls0)
  {
    ls := ls0;
    var w := |ls| - 1;
    while w >= 0
      invariant -1 <= w < |ls0|
      invariant ls == ls0[..w + 1] + NonEmpty(ls0[w + 1..])
      decreases w + 1
    {
      NonEmptyFrom(ls0, w);
      CountdownStep(ls0, w, NonEmpty(ls0[w + 1..]));
      if ls[w] == "" {
        ls := ls[..w] + ls[w + 1..];
      }
      w := w - 1;
    }
    assert ls0[0..] == ls0;
  }

  /** The REPL's statement splitter and its two globals. */
  class Repl {
    var unevaled: string
    var continuePrompt: bool

    function State(): Pending
      reads this
    {
      Pending(unevaled, continuePrompt)
    }

    /** `unevaled = ''`, `continue_prompt = False`. */
    constructor ()
      ensures State() == Pending("", false)
    {
      unevaled, continuePrompt := "", false;
    }

    /** `tokenize`. */
    method Tokenize(curRead: string) returns (statements: seq<string>)
      modifies this
      ensures (State(), statements) == Tokenized(old(State()), curRead)
    {
      var s := Strip(curRead);
      var expressions := unevaled + " " + s;
      for i := 0 to |CONTINUE_KEYWORDS|
        invariant continuePrompt == (old(continuePrompt)
          || exists j :: 0 <= j < i && Contains(expressions, CONTINUE_KEYWORDS[j]))
      {
        if Contains(expressions, CONTINUE_KEYWORDS[i]) {
          continuePrompt := true;
        }
      }
      var expLst: seq<string>;
      if continuePrompt && curRead == "" {
        continuePrompt := false;
        unevaled := "";
        expLst := [expressions];
      } else if continuePrompt {
        unevaled := expressions;
        expLst := [];
      } else {
        expLst := SplitChar(expressions, ';');
        unevaled := expLst[|expLst| - 1];
        expLst := expLst[..|expLst| - 1];
      }
      statements := RemoveEmpty(expLst);
    }
  }

  // ---------------------------------------------------------------------------
  // java_form.

  /** `java_form`: a value whose `str()` is a Python spelling of an operator
      or literal becomes the Java spelling; anything else comes back as it
      is.  The `str()` of None, of a number or of a float is never one of
      those spellings. */
  function JavaForm(item: PyVal): (r: PyVal)
    ensures item.StrVal? && item.s in JAVA_TO_PYTHON.Values ==> r.StrVal? && r.s in JAVA_TO_PYTHON && JAVA_TO_PYTHON[r.s] == item.s
    ensures item.StrVal? && item.s !in JAVA_TO_PYTHON.Values ==> r == item
    ensures item.BoolVal? ==> r.StrVal? && r.s in JAVA_TO_PYTHON && JAVA_TO_PYTHON[r.s] == (if item.b then "True" else "False")
    ensures !item.BoolVal? && !item.StrVal? ==> r == item
  {
    SpellingsSwapSides();
    SpellingsInverse();
    match item
    case BoolVal(b) => StrVal(if b then "true" else "false")
    case StrVal(s) => if s in PYTHON_TO_JAVA then StrVal(PYTHON_TO_JAVA[s]) else item
    case _ => item
  }

  /** `java_form` undoes the Java-to-Python spelling map, shows booleans with
      Java's literals and leaves every other value alone. */
  lemma JavaFormFacts()
    ensures forall k :: k in JAVA_TO_PYTHON ==> JavaForm(StrVal(JAVA_TO_PYTHON[k])) == StrVal(k)
    ensures JavaForm(BoolVal(true)) == StrVal("true") && JavaForm(BoolVal(false)) == StrVal("false")
    ensures forall s :: s !in JAVA_TO_PYTHON.Values ==> JavaForm(StrVal(s)) == StrVal(s)
    ensures forall v: PyVal :: !v.BoolVal? && !v.StrVal? ==> JavaForm(v) == v
  {
    SpellingsInverse();
    SpellingsSwapSides();
    assert JAVA_TO_PYTHON["true"] == "True" && JAVA_TO_PYTHON["false"] == "False";
  }

  // ---------------------------------------------------------------------------
  // handle_while and handle_for.

  /** `while\s*\(` and `for\s*\(`; the body opens at `\)\s*\{`, CLOSE_OPEN. */
  const WHILE_OPEN: Pattern := [Lit('w'), Lit('h'), Lit('i'), Lit('l'), Lit('e'), Ws, Lit('(')]
  const FOR_OPEN: Pattern := [Lit('f'), Lit('o'), Lit('r'), Ws, Lit('(')]

  lemma LoopSplittersSolid()
    ensures Solid(WHILE_OPEN) && Solid(FOR_OPEN) && Solid(CLOSE_OPEN) && Solid(CLOSE)
  {
    assert !WHILE_OPEN[0].Ws? && !FOR_OPEN[0].Ws?;
    SplittersSolid();
    NormalisersSolid();
  }

  /** Loop tokens cut at `) {` and at `}`. */
  function BodyTokens(ts: seq<string>): seq<string> {
    LoopSplittersSolid();
    Stage(CLOSE, Stage(CLOSE_OPEN, ts))
  }

  /** A while block cut at `while (`, at `) {` and at `}`. */
  function WhileTokens(block: string): seq<string> {
    LoopSplittersSolid();
    BodyTokens(Stage(WHILE_OPEN, [block]))
  }

  /** A for block cut at `for (`, at `) {` and at `}`. */
  function ForTokens(block: string): seq<string> {
    LoopSplittersSolid();
    BodyTokens(Stage(FOR_OPEN, [block]))
  }

  /** One pass of a loop body over an environment. */
  type Step = Env -> (Env, Outcome)

  /** `parse_eval` of a block of statements. */
  type Runner = (string, Env) -> (Env, Outcome)

  /** The loop `while evaluate_expression(condition): step`, for at most
      `fuel` passes: it stops when the condition is falsy or raises, or when
      a pass raises. */
  function Looped(e: Env, cond: string, step: Step, ev: Evaluator, fuel: nat): (Env, Outcome)
    decreases fuel
  {
    if fuel == 0 then (e, Fail(OutOfFuel))
    else match ev(cond, e)
      case Err(err) => (e, Fail(err))
      case Ok(v) =>
        if !Truthy(v) then (e, Pass)
        else
          var (e1, o) := step(e);
          if o.Fail? then (e1, o) else Looped(e1, cond, step, ev, fuel - 1)
  }

  /** A loop that ends normally ends on a falsy condition. */
  lemma {:induction false} LoopedExit(e: Env, cond: string, step: Step, ev: Evaluator, fuel: nat)
    ensures Looped(e, cond, step, ev, fuel).1 == Pass ==>
      var e' := Looped(e, cond, step, ev, fuel).0;
      ev(cond, e').Ok? && !Truthy(ev(cond, e').value)
    decreases fuel
  {
    if fuel > 0 && ev(cond, e).Ok? && Truthy(ev(cond, e).value) && step(e).1.Pass? {
      LoopedExit(step(e).0, cond, step, ev, fuel - 1);
    }
  }

  /** The step bound only cuts off: a loop that finished within `fuel`
      passes finishes the same way with any larger bound. */
  lemma {:induction false} LoopedFuel(e: Env, cond: string, step: Step, ev: Evaluator, fuel: nat, more: nat)
    requires fuel <= more && Looped(e, cond, step, ev, fuel).1 != Fail(OutOfFuel)
    ensures Looped(e, cond, step, ev, more) == Looped(e, cond, step, ev, fuel)
    decreases fuel
  {
    if ev(cond, e).Ok? && Truthy(ev(cond, e).value) && step(e).1.Pass? {
      LoopedFuel(step(e).0, cond, step, ev, fuel - 1, more - 1);
    }
  }

  /** A loop whose body keeps the number of frames keeps it too: the loop
      itself pushes no frame. */
  lemma {:induction false} LoopedKeepsFrames(e: Env, cond: string, step: Step, ev: Evaluator, fuel: nat)
    requires forall x :: |step(x).0.frames| == |x.frames|
    ensures |Looped(e, cond, step, ev, fuel).0.frames| == |e.frames|
    decreases fuel
  {
    if fuel > 0 && ev(cond, e).Ok? && Truthy(ev(cond, e).value) && step(e).1.Pass? {
      LoopedKeepsFrames(step(e).0, cond, step, ev, fuel - 1);
    }
  }

  /** A pass that completes hands the loop on to the next pass. */
  lemma LoopedPass(e: Env, cond: string, step: Step, ev: Evaluator, fuel: nat)
    requires fuel > 0 && ev(cond, e).Ok? && Truthy(ev(cond, e).value) && step(e).1 == Pass
    ensures Looped(e, cond, step, ev, fuel) == Looped(step(e).0, cond, step, ev, fuel - 1)
  {
  }

  /** A pass that raises ends the loop with its partial effects. */
  lemma LoopedRaise(e: Env, cond: string, step: Step, ev: Evaluator, fuel: nat)
    requires fuel > 0 && ev(cond, e).Ok? && Truthy(ev(cond, e).value) && step(e).1.Fail?
    ensures Looped(e, cond, step, ev, fuel) == step(e)
  {
  }

  /** A pass of a while loop: its statements. */
  function WhileStep(statements: string, run: Runner): Step {
    e => run(statements, e)
  }

  /** A pass of a for loop: its statements, then its update through
      `assign_variable`. */
  function ForStep(statements: string, update: string, ev: Evaluator, run: Runner): Step {
    e => ForPassed(statements, update, ev, run, e)
  }

  function ForPassed(statements: string, update: string, ev: Evaluator, run: Runner, e: Env): (Env, Outcome) {
    var (e1, o1) := run(statements, e);
    if o1.Fail? then (e1, o1) else Assigned(e1, update, ev, ReplModule)
  }

  /** `step` is the pass of a for loop.  The loop methods take the pass as
      such a `step`, so that their proofs need not look inside
      `assign_variable`. */
  ghost predicate ForStepOf(step: Step, statements: string, update: string, ev: Evaluator, run: Runner) {
    forall e {:trigger ForPassed(statements, update, ev, run, e)} :: step(e) == ForPassed(statements, update, ev, run, e)
  }

  /** `handle_while`: the condition and the statements, which must be the
      only two tokens, then the loop in the caller's frame. */
  function HandledWhile(e: Env, block: string, ev: Evaluator, run: Runner, fuel: nat): (Env, Outcome) {
    var tokens := WhileTokens(block);
    if |tokens| != 2 then
      (e, Fail(AssertionError("There should be 2 tokens, but there are " + DecimalText(|tokens|))))
    else Looped(e, tokens[0], WhileStep(tokens[1], run), ev, fuel)
  }

  /** The four parts of a for loop: the header cut at `;`, then the body;
      a block with fewer than two tokens raises IndexError and a header
      without exactly three parts ValueError. */
  function ForParts(block: string): (r: Result<(string, string, string, string)>)
    ensures r.Err? ==> r.error == IndexError || r.error == ValueError
  {
    var tokens := ForTokens(block);
    if |tokens| < 2 then Err(IndexError)
    else
      var parts := SplitChar(tokens[0], ';') + [tokens[1]];
      if |parts| != 4 then Err(ValueError) else Ok((parts[0], parts[1], parts[2], parts[3]))
  }

  /** The loop variable: the second space-separated word of the
      initialiser. */
  function LoopVariable(initialize: string): Result<string> {
    var words := SplitChar(initialize, ' ');
    if |words| < 2 then Err(IndexError) else Ok(words[1])
  }

  /** The end of `handle_for`: after a loop that completed, the loop
      variable is popped from the frame `get_variable_frame` finds it in.
      What completes has the variable gone from the top frame and the same
      number of frames. */
  function Unbound(r: (Env, Outcome), initialize: string): (r': (Env, Outcome))
    ensures r'.1 == Pass ==>
      r.1 == Pass && LoopVariable(initialize).Ok? && r'.0.frames != [] && |r'.0.frames| == |r.0.frames|
      && LoopVariable(initialize).value !in Innermost(r'.0)
      && LoopVariable(initialize).value in Innermost(r.0) + r.0.instance
  {
    if r.1.Fail? then r
    else match LoopVariable(initialize)
      case Err(err) => (r.0, Fail(err))
      case Ok(name) =>
        match VariableFrame(r.0, name)
        case Err(err) => (r.0, Fail(err))
        case Ok(None) => (r.0, Fail(NoFrame))
        case Ok(Some(p)) => (Pop(r.0, p, name), Pass)
  }

  /** `handle_for`: the initialiser through `assign_variable`, the loop of
      statements and update, then the loop variable popped. */
  function HandledFor(e: Env, block: string, ev: Evaluator, run: Runner, fuel: nat): (Env, Outcome) {
    match ForParts(block)
    case Err(err) => (e, Fail(err))
    case Ok((initialize, condition, update, statements)) =>
      var (e1, o1) := Assigned(e, initialize, ev, ReplModule);
      if o1.Fail? then (e1, o1)
      else Unbound(Looped(e1, condition, ForStep(statements, update, ev, run), ev, fuel), initialize)
  }

  /** After a for loop that completes, the loop variable is gone from the
      top frame, and the condition was falsy just before it was popped. */
  lemma HandledForFacts(e: Env, block: string, ev: Evaluator, run: Runner, fuel: nat)
    ensures HandledFor(e, block, ev, run, fuel).1 == Pass ==>
      ForParts(block).Ok? && LoopVariable(ForParts(block).value.0).Ok?
      && HandledFor(e, block, ev, run, fuel).0.frames != []
      && LoopVariable(ForParts(block).value.0).value !in Innermost(HandledFor(e, block, ev, run, fuel).0)
  {
    if ForParts(block).Ok? {
      var (initialize, condition, update, statements) := ForParts(block).value;
      var (e1, o1) := Assigned(e, initialize, ev, ReplModule);
      if o1.Pass? {
        var loop := Looped(e1, condition, ForStep(statements, update, ev, run), ev, fuel);
        assert HandledFor(e, block, ev, run, fuel) == Unbound(loop, initialize);
      }
    }
  }

  /** A while loop whose statements keep the number of frames keeps it
      too, and one that completes ends on a falsy condition. */
  lemma HandledWhileFacts(e: Env, block: string, ev: Evaluator, run: Runner, fuel: nat)
    requires forall s, x :: |run(s, x).0.frames| == |x.frames|
    ensures |HandledWhile(e, block, ev, run, fuel).0.frames| == |e.frames|
    ensures HandledWhile(e, block, ev, run, fuel).1 == Pass ==>
      var tokens := WhileTokens(block);
      var e' := HandledWhile(e, block, ev, run, fuel).0;
      |tokens| == 2 && ev(tokens[0], e').Ok? && !Truthy(ev(tokens[0], e').value)
  {
    var tokens := WhileTokens(block);
    if |tokens| == 2 {
      LoopedKeepsFrames(e, tokens[0], WhileStep(tokens[1], run), ev, fuel);
      LoopedExit(e, tokens[0], WhileStep(tokens[1], run), ev, fuel);
    }
  }

  /** The environment after a foreign `parse_eval` updated it in place. */
  method Apply(env: Environment, e: Env)
    modifies env
    ensures env.State() == e
  {
    env.stack, env.instanceVars := e.frames, e.instance;
  }

  /** `handle_while` on the REPL's environment. */
  method HandleWhile(env: Environment, block: string, ev: Evaluator, run: Runner, fuel: nat)
    returns (o: Outcome)
    modifies env
    ensures (env.State(), o) == HandledWhile(old(env.State()), block, ev, run, fuel)
  {
    var tokens := WhileTokens(block);
    if |tokens| != 2 {
      return Fail(AssertionError("There should be 2 tokens, but there are " + DecimalText(|tokens|)));
    }
    var condition, statements := tokens[0], tokens[1];
    o := RunWhileLoop(env, condition, statements, ev, run, fuel);
  }

  /** The loop of `handle_while`: the statements, while the condition
      holds. */
  method RunWhileLoop(env: Environment, condition: string, statements: string, ev: Evaluator, run: Runner, fuel: nat)
    returns (o: Outcome)
    modifies env
    ensures (env.State(), o) == Looped(old(env.State()), condition, WhileStep(statements, run), ev, fuel)
  {
    ghost var step := WhileStep(statements, run);
    var left := fuel;
    while true
      invariant Looped(old(env.State()), condition, step, ev, fuel) == Looped(env.State(), condition, step, ev, left)
      decreases left
    {
      if left == 0 {
        return Fail(OutOfFuel);
      }
      ghost var e0 := env.State();
      var v := ev(condition, env.State());
      if v.Err? {
        return Fail(v.error);
      }
      if !Truthy(v.value) {
        return Pass;
      }
      var (e1, o1) := run(statements, env.State());
      Apply(env, e1);
      assert step(e0) == (e1, o1);
      if o1.Fail? {
        LoopedRaise(e0, condition, step, ev, left);
        return o1;
      }
      LoopedPass(e0, condition, step, ev, left);
      left := left - 1;
    }
  }

  /** One pass of the loop of `handle_for`: the statements, then the
      update. */
  method ForPass(env: Environment, update: string, statements: string, ev: Evaluator, run: Runner, ghost step: Step)
    returns (o: Outcome)
    requires ForStepOf(step, statements, update, ev, run)
    modifies env
    ensures (env.State(), o) == step(old(env.State()))
  {
    ghost var e0 := env.State();
    assert step(e0) == ForPassed(statements, update, ev, run, e0);
    var (e1, o1) := run(statements, env.State());
    Apply(env, e1);
    if o1.Fail? {
      return o1;
    }
    o := env.AssignVariable(update, ev, ReplModule);
  }

  /** The loop of `handle_for`: statements, then the update through
      `assign_variable`, while the condition holds. */
  method RunForLoop(env: Environment, condition: string, update: string, statements: string,
                    ev: Evaluator, run: Runner, fuel: nat, ghost step: Step)
    returns (o: Outcome)
    requires ForStepOf(step, statements, update, ev, run)
    modifies env
    ensures (env.State(), o) == Looped(old(env.State()), condition, step, ev, fuel)
  {
    var left := fuel;
    while true
      invariant Looped(old(env.State()), condition, step, ev, fuel) == Looped(env.State(), condition, step, ev, left)
      decreases left
    {
      if left == 0 {
        return Fail(OutOfFuel);
      }
      ghost var e0 := env.State();
      var v := ev(condition, env.State());
      if v.Err? {
        return Fail(v.error);
      }
      if !Truthy(v.value) {
        return Pass;
      }
      o := ForPass(env, update, statements, ev, run, step);
      if o.Fail? {
        LoopedRaise(e0, condition, step, ev, left);
        return;
      }
      LoopedPass(e0, condition, step, ev, left);
      left := left - 1;
    }
  }

  /** `get_variable_frame(var_name, ...).pop(var_name)` after the loop. */
  method PopLoopVariable(env: Environment, initialize: string) returns (o: Outcome)
    modifies env
    ensures (env.State(), o) == Unbound((old(env.State()), Pass), initialize)
  {
    var varName := LoopVariable(initialize);
    if varName.Err? {
      return Fail(varName.error);
    }
    var frame := VariableFrame(env.State(), varName.value);
    if frame.Err? {
      return Fail(frame.error);
    }
    if frame.value.None? {
      return Fail(NoFrame);
    }
    Apply(env, Pop(env.State(), frame.value.value, varName.value));
    o := Pass;
  }

  /** `handle_for` on the REPL's environment. */
  method HandleFor(env: Environment, block: string, ev: Evaluator, run: Runner, fuel: nat)
    returns (o: Outcome)
    modifies env
    ensures (env.State(), o) == HandledFor(old(env.State()), block, ev, run, fuel)
  {
    var parts := ForParts(block);
    if parts.Err? {
      return Fail(parts.error);
    }
    var (initialize, condition, update, statements) := parts.value;
    o := env.AssignVariable(initialize, ev, ReplModule);
    if o.Fail? {
      return;
    }
    ghost var step := ForStep(statements, update, ev, run);
    assert ForStepOf(step, statements, update, ev, run);
    o := RunForLoop(env, condition, update, statements, ev, run, fuel, step);
    if o.Fail? {
      return;
    }
    o := PopLoopVariable(env, initialize);
  }
}
