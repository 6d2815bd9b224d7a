/** The REPL of interpreter/javarepl.py: its variable lookup, its statement
    splitter, the one-expression tokenizer that records every expression in
    `memory`, `java_form`, and the order in which `Expression.eval` decides
    what a statement is.  Printing, evaluation and the assignment functions
    it dispatches to are not part of this module. */
module InterpRepl {
  import opened Wrappers
  import opened PyText
  import opened Constants
  import opened Assign
  import Lexer
  import ReplMain
  import Util

  // ---------------------------------------------------------------------------
  // get_current_frame, get_variable_frame and variable_lookup.

  /** `get_variable_frame`: `stack[-1]` raises IndexError on an empty stack;
      otherwise the top frame if it holds the name, else the instance
      variables if they do. */
  function InterpVariableFrame(e: Env, name: string): (r: Result<Option<Place>>)
    ensures r.Err? <==> e.frames == []
    ensures r.Err? ==> r.error == IndexError
    ensures r.Ok? ==> (r.value.Some? <==> name in Innermost(e) || name in e.instance)
    ensures r.Ok? && r.value.Some? ==> name in FrameAt(e, r.value.value)
    ensures r.Ok? && r.value == Some(InstanceVars) ==> name !in Innermost(e)
  {
    if e.frames == [] then Err(IndexError) else VariableFrame(e, name)
  }

  /** `variable_lookup`: the binding, or JavaNameError. */
  function InterpLookup(e: Env, name: string): (r: Result<Binding>)
    ensures e.frames == [] ==> r == Err(IndexError)
    ensures e.frames != [] && name !in Innermost(e) && name !in e.instance ==> r == Err(JavaNameError)
    ensures e.frames != [] && name in Innermost(e) ==> r == Ok(Innermost(e)[name])
    ensures e.frames != [] && name !in Innermost(e) && name in e.instance ==> r == Ok(e.instance[name])
  {
    var place :- InterpVariableFrame(e, name);
    if place.None? then Err(JavaNameError) else Ok(FrameAt(e, place.value)[name])
  }

  /** The two drafts look names up the same way: they differ only in how an
      empty stack fails (IndexError here, the assertion in main/javarepl.py). */
  lemma LookupDraftsAgree(e: Env, name: string)
    ensures e.frames != [] ==> InterpVariableFrame(e, name) == VariableFrame(e, name)
    ensures e.frames != [] ==> InterpLookup(e, name) == Lookup(e, name)
    ensures e.frames == [] ==> InterpLookup(e, name) == Err(IndexError) && Lookup(e, name) == Err(EmptyStack)
  {
  }

  /** The top frame shadows the instance variables, and a name bound in
      neither is a JavaNameError. */
  lemma InterpLookupOrder(e: Env, name: string)
    requires e.frames != []
    ensures name in Innermost(e) ==> InterpLookup(e, name) == Ok(Innermost(e)[name])
    ensures name !in Innermost(e) && name in e.instance ==> InterpLookup(e, name) == Ok(e.instance[name])
    ensures name !in Innermost(e) && name !in e.instance ==> InterpLookup(e, name) == Err(JavaNameError)
  {
    LookupDraftsAgree(e, name);
    LookupOrder(e, name);
  }

  // ---------------------------------------------------------------------------
  // tokenize.

  /** `tokenize` of this draft: the pending text and the line, split at every
      `;`; the last piece is the new pending text and every other piece,
      empty ones included, is returned. */
  function SplitPending(unevaled: string, line: string): (string, seq<string>) {
    var expressions := SplitChar(unevaled + " " + Strip(line), ';');
    (expressions[|expressions| - 1], expressions[..|expressions| - 1])
  }

  /** Nothing is lost or added: the statements and the new pending text,
      joined with `;`, are the old pending text and the line, and no piece
      holds a `;`. */
  lemma SplitPendingJoins(unevaled: string, line: string)
    ensures var (pending, statements) := SplitPending(unevaled, line);
      Join(statements + [pending], [';']) == unevaled + " " + Strip(line)
      && ';' !in pending && forall x :: x in statements ==> ';' !in x
  {
    var text := unevaled + " " + Strip(line);
    var pieces := SplitChar(text, ';');
    SplitCharJoin(text, ';');
    SplitCharPieces(text, ';');
    assert pieces[..|pieces| - 1] + [pieces[|pieces| - 1]] == pieces;
    forall x | x in pieces[..|pieces| - 1] ensures ';' !in x {
      var i :| 0 <= i < |pieces| - 1 && pieces[..|pieces| - 1][i] == x;
      assert pieces[i] == x;
    }
  }

  /** Outside a block the REPL of main/javarepl.py splits the same way and
      keeps the same pending text; it only drops the empty statements this
      draft returns. */
  lemma TokenizeDrafts(unevaled: string, line: string)
    requires !ReplMain.HasContinueKeyword(unevaled + " " + Strip(line))
    ensures var (pending, statements) := SplitPending(unevaled, line);
      ReplMain.Tokenized(ReplMain.Pending(unevaled, false), line)
      == (ReplMain.Pending(pending, false), Util.NonEmpty(statements))
  {
  }

  // ---------------------------------------------------------------------------
  // tokenize_one_expression.

  /** The characters `tokenize_one_expression` pads, in the order it pads
      them: each opening bracket of DELIMITERS, then its closing one. */
  const EXPRESSION_DELIMS: seq<char> :=
    [DELIMITERS[0].0, DELIMITERS[0].1, DELIMITERS[1].0, DELIMITERS[1].1]

  lemma ExpressionDelimsValid()
    ensures Lexer.ValidDelims(EXPRESSION_DELIMS)
    ensures Lexer.CharSet(EXPRESSION_DELIMS) == {'(', ')', '{', '}'}
  {
    assert EXPRESSION_DELIMS == ['(', ')', '{', '}'];
  }

  /** The tokens of one expression. */
  function ExpressionTokens(s: string): seq<string> {
    Lexer.Tokens(s, Lexer.CharSet(EXPRESSION_DELIMS))
  }

  /** The tokens of an expression are non-empty and free of whitespace; a
      bracket is always a token of its own; and together they hold exactly
      the expression's non-whitespace characters, in order. */
  lemma ExpressionTokensShape(s: string)
    ensures forall k :: 0 <= k < |ExpressionTokens(s)| ==>
      ExpressionTokens(s)[k] != [] && NoSpace(ExpressionTokens(s)[k])
    ensures forall k, j ::
      (0 <= k < |ExpressionTokens(s)| && 0 <= j < |ExpressionTokens(s)[k]|
       && ExpressionTokens(s)[k][j] in {'(', ')', '{', '}'}) ==>
      ExpressionTokens(s)[k] == [ExpressionTokens(s)[k][j]]
    ensures Concat(ExpressionTokens(s)) == NonSpace(s)
  {
    ExpressionDelimsValid();
    Lexer.TokensShape(s, EXPRESSION_DELIMS);
    Lexer.TokensKeepText(s, EXPRESSION_DELIMS);
  }

  /** Text without brackets is not padded. */
  lemma {:induction false} PaddedWithoutDelims(s: string, ds: set<char>)
    requires forall i :: 0 <= i < |s| ==> s[i] !in ds
    ensures Lexer.Padded(s, ds) == s
  {
    if s != [] {
      PaddedWithoutDelims(s[1..], ds);
    }
  }

  // ---------------------------------------------------------------------------
  // The assignment pattern `[a-zA-Z][\w\s]*[^=]=[^=]`.

  predicate IsAsciiLetter(c: char) {
    'a' <= c <= 'z' || 'A' <= c <= 'Z'
  }

  /** `\w` (on ASCII) or `\s`. */
  predicate IsWordOrSpace(c: char) {
    IsAsciiLetter(c) || '0' <= c <= '9' || c == '_' || IsSpace(c)
  }

  /** The pattern matches the start of `s` with `[\w\s]*` taking the
      characters 1 to k, the class `[^...]` (all but `excl`) taking the
      character k, `=` the character k + 1 and `[^=]` the character k + 2. */
  ghost predicate AssignMatchAt(s: string, k: nat, excl: seq<char>) {
    1 <= k && k + 3 <= |s| && IsAsciiLetter(s[0])
    && (forall i :: 1 <= i < k ==> IsWordOrSpace(s[i]))
    && s[k] !in excl && s[k + 1] == '=' && s[k + 2] != '='
  }

  /** `re.match` of the pattern: some way of matching at the start. */
  ghost predicate AssignMatch(s: string, excl: seq<char>) {
    exists k :: AssignMatchAt(s, k, excl)
  }

  /** The class before `=` as written, `[^=]`, and the class that also keeps
      the comparisons `<=`, `>=` and `!=` out. */
  const AS_WRITTEN: seq<char> := ['=']
  const INTENDED: seq<char> := ['=', '<', '>', '!']

  /** The end of the `[\w\s]` run that starts at `i`. */
  function RunEnd(s: string, i: nat): (j: nat)
    requires i <= |s|
    ensures i <= j <= |s|
    ensures forall m :: i <= m < j ==> IsWordOrSpace(s[m])
    ensures j < |s| ==> !IsWordOrSpace(s[j])
    decreases |s| - i
  {
    if i == |s| || !IsWordOrSpace(s[i]) then i else RunEnd(s, i + 1)
  }

  /** The matcher: after the letter, the run of word and space characters
      ends at j, and `=` can only follow at j or at j + 1. */
  function AssignShape(s: string, excl: seq<char>): bool {
    if |s| == 0 || !IsAsciiLetter(s[0]) then false
    else
      var j := RunEnd(s, 1);
      (2 <= j && j + 1 < |s| && s[j - 1] !in excl && s[j] == '=' && s[j + 1] != '=')
      || (j + 2 < |s| && s[j] !in excl && s[j + 1] == '=' && s[j + 2] != '=')
  }

  /** The matcher finds a match exactly when one exists, for any class
      that excludes `=` and no word or space character. */
  lemma AssignShapeMatches(s: string, excl: seq<char>)
    requires '=' in excl && forall c :: c in excl ==> !IsWordOrSpace(c)
    ensures AssignShape(s, excl) <==> AssignMatch(s, excl)
  {
    if |s| > 0 && IsAsciiLetter(s[0]) {
      var j := RunEnd(s, 1);
      if AssignShape(s, excl) {
        if 2 <= j && j + 1 < |s| && s[j - 1] !in excl && s[j] == '=' && s[j + 1] != '=' {
          assert AssignMatchAt(s, j - 1, excl);
        } else {
          assert AssignMatchAt(s, j, excl);
        }
      }
      if AssignMatch(s, excl) {
        var k: nat :| AssignMatchAt(s, k, excl);
        assert k + 1 == j || k == j;
      }
    }
  }

  // ---------------------------------------------------------------------------
  // Expression.eval.

  datatype Kind = Println | Assignment | Declaration | Evaluation

  /** `Expression.eval` on a stripped statement: `System.out.println`
      anywhere wins, then the assignment pattern, then two tokens whose first
      is a type name, and everything else is evaluated. */
  function KindOf(s: string, excl: seq<char>): Kind {
    var tokens := ExpressionTokens(s);
    if Contains(s, "System.out.println") then Println
    else if AssignShape(s, excl) then Assignment
    else if |tokens| == 2 && tokens[0] in TYPES then Declaration
    else Evaluation
  }

  /** A name made of ASCII word characters that starts with a letter. */
  predicate Identifier(name: string) {
    name != [] && IsAsciiLetter(name[0])
    && forall i :: 0 <= i < |name| ==> IsAsciiLetter(name[i]) || '0' <= name[i] <= '9' || name[i] == '_'
  }

  /** `name = value` goes to the assignment code under either class. */
  lemma SimpleAssignment(name: string, value: string, excl: seq<char>)
    requires Identifier(name) && '=' in excl && forall c :: c in excl ==> !IsWordOrSpace(c)
    requires !Contains(name + " = " + value, "System.out.println")
    ensures KindOf(name + " = " + value, excl) == Assignment
  {
    var s := name + " = " + value;
    assert AssignMatchAt(s, |name|, excl) by {
      assert s[|name|] == ' ' && s[|name| + 1] == '=' && s[|name| + 2] == ' ';
      forall i | 1 <= i < |name| ensures IsWordOrSpace(s[i]) {
        assert s[i] == name[i];
      }
    }
    AssignShapeMatches(s, excl);
  }

  /** As written, the comparisons `x <= v`, `x >= v` and `x != v` match the
      assignment pattern too, so the statement goes to the assignment code
      instead of being evaluated. */
  lemma ComparisonTakenForAssignment(name: string, op: char, value: string)
    requires Identifier(name) && op in ['<', '>', '!']
    requires !Contains(name + " " + [op] + "= " + value, "System.out.println")
    ensures KindOf(name + " " + [op] + "= " + value, AS_WRITTEN) == Assignment
  {
    var s := name + " " + [op] + "= " + value;
    assert AssignMatchAt(s, |name| + 1, AS_WRITTEN) by {
      assert s[|name|] == ' ' && s[|name| + 1] == op && s[|name| + 2] == '=' && s[|name| + 3] == ' ';
      forall i | 1 <= i < |name| + 1 ensures IsWordOrSpace(s[i]) {
        if i < |name| { assert s[i] == name[i]; }
      }
    }
    AssignShapeMatches(s, AS_WRITTEN);
  }

  /** With the intended class no comparison `x == v`, `x <= v`, `x >= v` or
      `x != v` matches the assignment pattern. */
  lemma ComparisonNotAssignment(name: string, op: char, value: string)
    requires Identifier(name) && op in ['=', '<', '>', '!']
    ensures !AssignShape(name + " " + [op] + "= " + value, INTENDED)
  {
    var s := name + " " + [op] + "= " + value;
    assert s[|name|] == ' ' && s[|name| + 1] == op && s[|name| + 2] == '=';
    forall k: nat ensures !AssignMatchAt(s, k, INTENDED) {
      if k < |name| - 1 {
        assert s[k + 1] == name[k + 1];
      }
    }
    AssignShapeMatches(s, INTENDED);
  }

  /** Every type name is an identifier. */
  lemma TypesAreIdentifiers(t: string)
    requires t in TYPES
    ensures Identifier(t)
  {
    assert t == "int" || t == "float" || t == "double" || t == "String"
      || t == "boolean" || t == "char" || t == "short" || t == "long";
  }

  /** An identifier has no whitespace. */
  lemma IdentifierNoSpace(name: string)
    requires Identifier(name)
    ensures NoSpace(name)
  {
  }

  /** Two identifiers and a space hold neither `=` nor a bracket. */
  lemma PairPlain(t: string, name: string)
    requires Identifier(t) && Identifier(name)
    ensures forall i :: 0 <= i < |t + " " + name| ==>
      (t + " " + name)[i] != '=' && (t + " " + name)[i] !in {'(', ')', '{', '}'}
  {
    var s := t + " " + name;
    forall i | 0 <= i < |s| ensures s[i] != '=' && s[i] !in {'(', ')', '{', '}'} {
      if i < |t| { assert s[i] == t[i]; }
      else if i > |t| { assert s[i] == name[i - |t| - 1]; }
    }
  }

  /** Text without `=` never matches the assignment pattern. */
  lemma NoEqualsNoMatch(s: string, excl: seq<char>)
    requires '=' in excl && forall c :: c in excl ==> !IsWordOrSpace(c)
    requires forall i :: 0 <= i < |s| ==> s[i] != '='
    ensures !AssignShape(s, excl)
  {
    forall k: nat ensures !AssignMatchAt(s, k, excl) {
      if k + 1 < |s| {
        assert s[k + 1] != '=';
      }
    }
    AssignShapeMatches(s, excl);
  }

  /** A two-word statement `type name` with a known type is a declaration. */
  lemma TypedNameDeclares(t: string, name: string, excl: seq<char>)
    requires t in TYPES && Identifier(name)
    requires '=' in excl && forall c :: c in excl ==> !IsWordOrSpace(c)
    requires !Contains(t + " " + name, "System.out.println")
    ensures KindOf(t + " " + name, excl) == Declaration
  {
    var s := t + " " + name;
    TypesAreIdentifiers(t);
    PairPlain(t, name);
    NoEqualsNoMatch(s, excl);
    assert ExpressionTokens(s) == [t, name] by {
      ExpressionDelimsValid();
      PaddedWithoutDelims(s, {'(', ')', '{', '}'});
      IdentifierNoSpace(t);
      IdentifierNoSpace(name);
      WordsOfPair(t, name);
    }
  }

  // ---------------------------------------------------------------------------
  // The REPL's globals.

  /** The globals `unevaled` and `memory`. */
  class Session {
    var unevaled: string
    var memory: seq<string>

    /** `unevaled = ''`, `memory = []`. */
    constructor ()
      ensures unevaled == "" && memory == []
    {
      unevaled, memory := "", [];
    }

    /** `tokenize`. */
    method Tokenize(line: string) returns (statements: seq<string>)
      modifies this
      ensures (unevaled, statements) == SplitPending(old(unevaled), line)
      ensures memory == old(memory)
    {
      var s := Strip(line);
      var expressions := SplitChar(unevaled + " " + s, ';');
      unevaled := expressions[|expressions| - 1];
      statements := expressions[..|expressions| - 1];
    }

    /** `tokenize_one_expression`: the expression is recorded in `memory`,
        then padded bracket by bracket and split on whitespace. */
    method TokenizeOneExpression(s: string) returns (tokens: seq<string>)
      modifies this
      ensures memory == old(memory) + [s] && unevaled == old(unevaled)
      ensures tokens == ExpressionTokens(s)
    {
      memory := memory + [s];
      ExpressionDelimsValid();
      tokens := Lexer.Tokenize(s, EXPRESSION_DELIMS);
    }

    /** `Expression(text).eval()` up to the choice of what to do: the
        statement is stripped and tokenized (and so recorded) first.  The
        assignment test is the code's, with the class AS_WRITTEN before the
        `=`, so a comparison such as `x <= 5` is taken for an assignment
        (ComparisonTakenForAssignment); KindOf with INTENDED is the
        corrected test (ComparisonNotAssignment). */
    method Classify(text: string) returns (k: Kind)
      modifies this
      ensures memory == old(memory) + [Strip(text)] && unevaled == old(unevaled)
      ensures k == KindOf(Strip(text), AS_WRITTEN)
    {
      var s := Strip(text);
      var tokens := TokenizeOneExpression(s);
      if Contains(s, "System.out.println") {
        k := Println;
      } else if AssignShape(s, AS_WRITTEN) {
        k := Assignment;
      } else if |tokens| == 2 && tokens[0] in TYPES {
        k := Declaration;
      } else {
        k := Evaluation;
      }
    }
  }
}
