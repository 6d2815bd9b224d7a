/** The recursive-descent parser of the compiler draft (compiler/compile_parse.py).

    Each reader of the source consumes tokens from the shared Buffer.  Here each
    reader is a method over the Buffer, proved against a function over the token
    sequence that returns the statement and the tokens it leaves; the lemmas at
    the end state the grammar those functions accept. */
module CompileParse {
  import opened Wrappers
  import opened PyText
  import opened Statements
  import opened Buffers

  const MODIFIERS: seq<string> := ["public", "protected", "private"]

  /** `val.lower() in MODIFIERS`: an access modifier in any letter case. */
  predicate IsModifier(t: string) {
    Lower(t) in MODIFIERS
  }

  lemma PrivateIsModifier()
    ensures IsModifier("private")
  {
    assert Lower("private") == "private";
  }

  /** A parse result: the value read and the tokens left after it. */
  type Parsed<T> = Result<(T, seq<string>)>

  // ---------------------------------------------------------------------------
  // Identifiers: `re.match("[a-zA-Z][\w]*$", name)`.

  predicate IsLetter(c: char) { 'a' <= c <= 'z' || 'A' <= c <= 'Z' }
  predicate IsWordChar(c: char) { IsLetter(c) || '0' <= c <= '9' || c == '_' }

  /** A letter followed by word characters. */
  predicate Identifier(name: string) {
    |name| >= 1 && IsLetter(name[0]) && forall i :: 1 <= i < |name| ==> IsWordChar(name[i])
  }

  /** Length of the run of word characters that starts `s`. */
  function WordCharRun(s: string): (n: nat)
    ensures n <= |s|
    ensures forall i :: 0 <= i < n ==> IsWordChar(s[i])
    ensures n < |s| ==> !IsWordChar(s[n])
  {
    if s == [] || !IsWordChar(s[0]) then 0 else 1 + WordCharRun(s[1..])
  }

  /** What `validate_name` accepts: the regular expression is anchored at the
      start by `re.match` and at the end by `$`, which also matches just before
      a final newline. */
  predicate ValidName(name: string) {
    Identifier(name) || (|name| >= 2 && name[|name| - 1] == '\n' && Identifier(name[..|name| - 1]))
  }

  /** `validate_name(name)`: passes exactly the valid names and raises the
      SyntaxError otherwise. */
  function ValidateName(name: string): (o: Outcome)
    ensures o.Pass? <==> ValidName(name)
    ensures o.Fail? ==> o.error == InvalidIdentifier(name)
  {
    if |name| == 0 || !IsLetter(name[0]) then Fail(InvalidIdentifier(name))
    else
      var k := 1 + WordCharRun(name[1..]);
      RunMatches(name);
      if k == |name| || (k == |name| - 1 && name[k] == '\n') then Pass
      else Fail(InvalidIdentifier(name))
  }

  /** The greedy run of word characters after the first letter decides the match. */
  lemma RunMatches(name: string)
    requires |name| >= 1 && IsLetter(name[0])
    ensures var k := 1 + WordCharRun(name[1..]);
      ValidName(name) <==> k == |name| || (k == |name| - 1 && name[k] == '\n')
  {
    var k := 1 + WordCharRun(name[1..]);
    assert forall i :: 1 <= i < k ==> IsWordChar(name[i]) by {
      forall i | 1 <= i < k ensures IsWordChar(name[i]) { assert name[1..][i - 1] == name[i]; }
    }
    assert k < |name| ==> !IsWordChar(name[k]) by {
      if k < |name| { assert name[1..][k - 1] == name[k]; }
    }
    if |name| >= 2 && name[|name| - 1] == '\n' && Identifier(name[..|name| - 1]) {
      forall i | 1 <= i < |name| - 1 ensures IsWordChar(name[i]) { assert name[..|name| - 1][i] == name[i]; }
    }
    if k == |name| - 1 && name[k] == '\n' {
      forall i | 1 <= i < k ensures IsWordChar(name[..k][i]) { assert name[..k][i] == name[i]; }
    }
  }

  // ---------------------------------------------------------------------------
  // The grammar, as functions over the token sequence.

  predicate AllShaped(ss: seq<Statement>) {
    forall i :: 0 <= i < |ss| ==> MemberShaped(ss[i].kind, ss[i].kargs)
  }

  /** The token after the optional modifier is `static`. */
  predicate StaticMarked(ts: seq<string>)
    requires ts != []
  {
    if IsModifier(ts[0]) then |ts| > 1 && ts[1] == "static" else ts[0] == "static"
  }

  /** `read_statement`: optional modifier (matched case-insensitively, only the
      exact token `private` makes the statement private), optional `static`, then
      a class, an assignment (`name =`) or a declaration. */
  function ParseStatement(ts: seq<string>): (r: Parsed<Statement>)
    ensures r.Ok? ==> |r.value.1| < |ts|
    ensures r.Ok? ==> MemberShaped(r.value.0.kind, r.value.0.kargs) && ClassShaped(r.value.0)
    decreases |ts|, 1
  {
    var h :- ParseHeader(ts);
    if h.val == "class" then ParseClass(h.isPrivate, h.rest)
    else if h.rest == [] then Err(EndOfInput)
    else if h.rest[0] == "=" then ParseAssign(h.val, h.rest[1..])
    else ParseDeclare(h.isPrivate, h.isStatic, h.val, h.rest)
  }

  /** The modifiers of a statement and the token that follows them. */
  datatype Header = Header(isPrivate: bool, isStatic: bool, val: string, rest: seq<string>)

  /** The optional modifier and `static` in front of a statement, and the first
      token after them. */
  function ParseHeader(ts: seq<string>): (r: Result<Header>)
    ensures r.Ok? ==> ts != [] && |r.value.rest| < |ts|
    ensures r.Ok? ==> r.value.isPrivate == (ts[0] == "private") && r.value.isStatic == StaticMarked(ts)
    ensures r.Err? ==> r.error == EndOfInput
  {
    if ts == [] then Err(EndOfInput)
    else
      var isMod := IsModifier(ts[0]);
      assert ts[0] == "private" ==> isMod by {
        if ts[0] == "private" { PrivateIsModifier(); }
      }
      if isMod && |ts| == 1 then Err(EndOfInput)
      else
        var ts1 := if isMod then ts[1..] else ts;
        var isStatic := ts1[0] == "static";
        if isStatic && |ts1| == 1 then Err(EndOfInput)
        else
          var ts2 := if isStatic then ts1[1..] else ts1;
          Ok(Header(isMod && ts[0] == "private", isStatic, ts2[0], ts2[1..]))
  }

  /** `read_class`, after the `class` keyword. */
  function ParseClass(isPrivate: bool, ts: seq<string>): (r: Parsed<Statement>)
    ensures r.Ok? ==> |r.value.1| < |ts|
    ensures r.Ok? ==> r.value.0.kind == ClassDef && ClassShaped(r.value.0)
                      && r.value.0.kargs["private"] == Bool(isPrivate)
                      && r.value.0.kargs["name"] == Str(ts[0]) && ValidateName(ts[0]).Pass?
    decreases |ts|, 0
  {
    if ts == [] then Err(EndOfInput)
    else
      var name := ts[0];
      :- ValidateName(name);
      var sup :- ParseSuper(ts[1..]);
      var ts2 := sup.1;
      if ts2 == [] then Err(EndOfInput)
      else if ts2[0] != "{" then Err(SyntaxError("expected {"))
      else
        var members :- ParseMembers(ts2[1..], []);
        Ok((ClassStmt(name, members.0, sup.0, isPrivate), members.1))
  }

  /** The optional `extends superclass` of a class header. */
  function ParseSuper(ts: seq<string>): (r: Parsed<Option<string>>)
    ensures r.Ok? ==> |r.value.1| <= |ts|
    ensures r.Ok? && r.value.0.None? ==> r.value.1 == ts
  {
    if ts == [] then Err(EndOfInput)
    else if ts[0] != "extends" then Ok((None, ts))
    else if |ts| == 1 then Err(EndOfInput)
    else
      :- ValidateName(ts[1]);
      Ok((Some(ts[1]), ts[2..]))
  }

  /** The member statements of a class body up to and including its `}`. */
  function ParseMembers(ts: seq<string>, acc: seq<Statement>): (r: Parsed<seq<Statement>>)
    ensures r.Ok? ==> |r.value.1| < |ts|
    ensures r.Ok? && AllShaped(acc) ==> AllShaped(r.value.0)
    decreases |ts|, 2
  {
    if ts == [] then Err(EndOfInput)
    else if ts[0] == "}" then Ok((acc, ts[1..]))
    else
      var s :- ParseStatement(ts);
      assert AllShaped(acc) ==> AllShaped(acc + [s.0]);
      ParseMembers(s.1, acc + [s.0])
  }

  /** A statement `read_declare` can return: a declaration, a method or a
      constructor, with the modifiers it was read with; a constructor is never
      static and is named by the type, the others carry the type. */
  predicate DeclaredAs(st: Statement, isPrivate: bool, isStatic: bool, dtype: string) {
    (st.kind == Declaration || st.kind == MethodDef || st.kind == ConstructorDef)
    && MemberShaped(st.kind, st.kargs)
    && st.kargs["private"] == Bool(isPrivate)
    && (st.kind == ConstructorDef ==> !isStatic && st.kargs["name"] == Str(dtype))
    && (st.kind != ConstructorDef ==> st.kargs["static"] == Bool(isStatic) && st.kargs["type"] == Str(dtype))
  }

  /** `read_declare`, after the type. */
  function ParseDeclare(isPrivate: bool, isStatic: bool, dtype: string, ts: seq<string>): (r: Parsed<Statement>)
    ensures r.Ok? ==> |r.value.1| <= |ts|
    ensures r.Ok? ==> var st := r.value.0;
      (st.kind == Declaration || st.kind == MethodDef || st.kind == ConstructorDef) && MemberShaped(st.kind, st.kargs)
  {
    if ts == [] then Err(EndOfInput)
    else
      var name, ts1 := ts[0], ts[1..];
      if name == "(" then
        if isStatic then Err(SyntaxError("Constructor can't be static"))
        else ParseConstructor(isPrivate, dtype, ts1)
      else
        :- ValidateName(name);
        if ts1 == [] then Err(EndOfInput)
        else if ts1[0] == ";" then Ok((DeclareStmt(name, dtype, isPrivate, isStatic), ts1[1..]))
        else if ts1[0] == "=" then Ok((DeclareStmt(name, dtype, isPrivate, isStatic), [name] + ts1))
        else if ts1[0] == "(" then ParseMethod(isPrivate, isStatic, dtype, name, ts1[1..])
        else Err(SyntaxError("Unexpected token: " + ts1[0]))
  }

  /** `read_assign`, after the `=`. */
  function ParseAssign(name: string, ts: seq<string>): (r: Parsed<Statement>)
    ensures r.Ok? ==> |r.value.1| < |ts|
    ensures r.Ok? ==> r.value.0.kind == Assignment && MemberShaped(Assignment, r.value.0.kargs)
  {
    var named := ValidateName(name);
    :- named;
    var v :- AssignValue(ts, []);
    if v.0 == [] then Err(SyntaxError("No expression found on right side of ="))
    else Ok((AssignStmt(name, Join(v.0 + [";"], " ")), v.1[1..]))
  }

  /** The tokens before the next `;`, appended to `acc`; the `;` is left. */
  function AssignValue(ts: seq<string>, acc: seq<string>): (r: Parsed<seq<string>>)
    ensures r.Ok? ==> |r.value.1| <= |ts| && r.value.1 != [] && r.value.1[0] == ";"
    ensures r.Err? ==> r.error == EndOfInput
    decreases |ts|
  {
    if ts == [] then Err(EndOfInput)
    else if ts[0] == ";" then Ok((acc, ts))
    else AssignValue(ts[1..], acc + [ts[0]])
  }

  /** `read_method`, after the `(`. */
  function ParseMethod(isPrivate: bool, isStatic: bool, dtype: string, name: string, ts: seq<string>)
    : (r: Parsed<Statement>)
    ensures r.Ok? ==> |r.value.1| < |ts|
    ensures r.Ok? ==> r.value.0.kind == MethodDef && MemberShaped(MethodDef, r.value.0.kargs)
  {
    var named := ValidateName(name);
    :- named;
    var args :- ParseArgs(ts);
    var body :- ParseBody(args.1);
    Ok((MethodStmt(name, dtype, args.0, body.0, isPrivate, isStatic), body.1))
  }

  /** `read_constructor`, after the `(`; the constructor is named by its "type". */
  function ParseConstructor(isPrivate: bool, dtype: string, ts: seq<string>): (r: Parsed<Statement>)
    ensures r.Ok? ==> |r.value.1| < |ts|
    ensures r.Ok? ==> r.value.0.kind == ConstructorDef && MemberShaped(ConstructorDef, r.value.0.kargs)
  {
    var args :- ParseArgs(ts);
    var body :- ParseBody(args.1);
    Ok((ConstructorStmt(dtype, args.0, body.0, isPrivate), body.1))
  }

  /** `parse_args`: zero or more comma-separated `type name` pairs, then `)` and `{`. */
  function ParseArgs(ts: seq<string>): (r: Parsed<seq<(string, string)>>)
    ensures r.Ok? ==> |r.value.1| + 2 <= |ts|
  {
    if ts == [] then Err(EndOfInput)
    else
      var first :- FirstParam(ts);
      var more :- ParseMoreParams(first.1, first.0);
      ParseArgsTail(more)
  }

  /** The first pair, unless the list is empty. */
  function FirstParam(ts: seq<string>): (r: Parsed<seq<(string, string)>>)
    requires ts != []
    ensures ts[0] == ")" ==> r == Ok(([], ts))
    ensures ts[0] != ")" ==> r == ParseParam(ts, [])
  {
    if ts[0] != ")" then ParseParam(ts, []) else Ok(([], ts))
  }

  /** What `parse_args` demands after the parameter list: `)` then `{`. */
  function ParseArgsTail(more: (seq<(string, string)>, seq<string>)): (r: Parsed<seq<(string, string)>>)
    ensures r.Ok? <==> |more.1| >= 2 && more.1[0] == ")" && more.1[1] == "{"
    ensures r.Ok? ==> r.value == (more.0, more.1[2..])
  {
    var ts3 := more.1;
    if ts3 == [] then Err(EndOfInput)
    else if ts3[0] != ")" then Err(SyntaxError("expected )"))
    else if |ts3| == 1 then Err(EndOfInput)
    else if ts3[1] != "{" then Err(SyntaxError("expected {"))
    else Ok((more.0, ts3[2..]))
  }

  /** One `type name` pair, both validated before they are taken. */
  function ParseParam(ts: seq<string>, acc: seq<(string, string)>): (r: Parsed<seq<(string, string)>>)
    ensures r.Ok? <==> |ts| >= 2 && ValidateName(ts[0]).Pass? && ValidateName(ts[1]).Pass?
    ensures r.Ok? ==> r.value == (acc + [(ts[0], ts[1])], ts[2..])
  {
    if ts == [] then Err(EndOfInput)
    else
      :- ValidateName(ts[0]);
      if |ts| == 1 then Err(EndOfInput)
      else
        :- ValidateName(ts[1]);
        Ok((acc + [(ts[0], ts[1])], ts[2..]))
  }

  /** The `, type name` pairs that follow the first one. */
  function ParseMoreParams(ts: seq<string>, acc: seq<(string, string)>): (r: Parsed<seq<(string, string)>>)
    ensures r.Ok? ==> |r.value.1| <= |ts|
    decreases |ts|
  {
    if ts == [] then Err(EndOfInput)
    else if ts[0] != "," then Ok((acc, ts))
    else
      var p :- ParseParam(ts[1..], acc);
      ParseMoreParams(p.1, p.0)
  }

  /** `parse_body`: the tokens up to the `}` that closes the already opened
      brace, joined with spaces; nested braces are kept. */
  function ParseBody(ts: seq<string>): (r: Parsed<string>)
    ensures r.Ok? ==> |r.value.1| < |ts|
  {
    var scan :- BodyScan(ts, 1, []);
    Ok((Join(scan.0[..|scan.0| - 1], " "), scan.1))
  }

  /** Brace-depth scan: takes tokens until the depth, starting at `depth`, falls
      to zero; the closing `}` is the last token taken. */
  function BodyScan(ts: seq<string>, depth: nat, acc: seq<string>): (r: Parsed<seq<string>>)
    requires depth >= 1
    ensures r.Ok? ==> |r.value.0| > |acc| && |r.value.1| < |ts|
    decreases |ts|
  {
    if ts == [] then Err(EndOfInput)
    else
      var v := ts[0];
      var d := if v == "{" then depth + 1 else if v == "}" then depth - 1 else depth;
      if d == 0 then Ok((acc + [v], ts[1..]))
      else BodyScan(ts[1..], d, acc + [v])
  }

  /** `read_line`: statements until the tokens run out. */
  function ParseLine(ts: seq<string>, acc: seq<Statement>): (r: Result<seq<Statement>>)
    decreases |ts|
  {
    if ts == [] then Ok(acc)
    else
      var s :- ParseStatement(ts);
      ParseLine(s.1, acc + [s.0])
  }

  // ---------------------------------------------------------------------------
  // The modifiers a statement records.

  /** A method records the modifiers it was declared with. */
  lemma MethodFlags(p: bool, st: bool, dtype: string, name: string, ts: seq<string>)
    requires ParseMethod(p, st, dtype, name, ts).Ok?
    ensures DeclaredAs(ParseMethod(p, st, dtype, name, ts).value.0, p, st, dtype)
  {
    var args := ParseArgs(ts).value;
    var body := ParseBody(args.1).value;
    assert ParseMethod(p, st, dtype, name, ts).value.0 == MethodStmt(name, dtype, args.0, body.0, p, st);
  }

  /** A constructor is never static and is named by its type. */
  lemma ConstructorFlags(p: bool, dtype: string, ts: seq<string>)
    requires ParseConstructor(p, dtype, ts).Ok?
    ensures DeclaredAs(ParseConstructor(p, dtype, ts).value.0, p, false, dtype)
  {
    var args := ParseArgs(ts).value;
    var body := ParseBody(args.1).value;
    assert ParseConstructor(p, dtype, ts).value.0 == ConstructorStmt(dtype, args.0, body.0, p);
  }

  /** Whatever `read_declare` returns carries the modifiers and type it was given. */
  lemma DeclareFlags(p: bool, st: bool, dtype: string, ts: seq<string>)
    requires ParseDeclare(p, st, dtype, ts).Ok?
    ensures DeclaredAs(ParseDeclare(p, st, dtype, ts).value.0, p, st, dtype)
  {
    var name, ts1 := ts[0], ts[1..];
    if name == "(" {
      ConstructorFlags(p, dtype, ts1);
    } else if ts1[0] == "(" {
      MethodFlags(p, st, dtype, name, ts1[1..]);
    }
  }

  /** A statement other than an assignment is private exactly when it starts
      with the token `private`; a declaration or method is static exactly when
      `static` follows the optional modifier. */
  lemma StatementFlags(ts: seq<string>)
    requires ParseStatement(ts).Ok?
    ensures var s := ParseStatement(ts).value.0;
      s.kind != Assignment ==> "private" in s.kargs && s.kargs["private"] == Bool(ts[0] == "private")
    ensures var s := ParseStatement(ts).value.0;
      (s.kind == Declaration || s.kind == MethodDef) ==> s.kargs["static"] == Bool(StaticMarked(ts))
  {
    var h := ParseHeader(ts).value;
    if h.val != "class" && h.rest[0] != "=" {
      DeclareFlags(h.isPrivate, h.isStatic, h.val, h.rest);
    }
  }

  // ---------------------------------------------------------------------------
  // The grammar the functions accept.

  /** Every identifier passes `validate_name`. */
  lemma NamePasses(name: string)
    requires Identifier(name)
    ensures ValidateName(name).Pass?
  {
  }

  /** The cases of compiler/parse_test.py for `validate_name`. */
  /** A name that does not start with a letter fails `validate_name`. */
  lemma NameFails(name: string)
    requires name == [] || !IsLetter(name[0])
    ensures ValidateName(name) == Fail(InvalidIdentifier(name))
  {
  }

  lemma ValidNameExamples()
    ensures ValidateName("hello").Pass? && ValidateName("x").Pass? && ValidateName("foo").Pass?
    ensures ValidateName("hello_world93").Pass?
  {
    NamePasses("hello");
    NamePasses("x");
    NamePasses("foo");
    NamePasses("hello_world93");
  }

  lemma InvalidNameExamples()
    ensures ValidateName("__init__").Fail? && ValidateName("9gag").Fail? && ValidateName("$jquery").Fail?
    ensures ValidateName("hyphen-here").Fail? && ValidateName("space here").Fail?
  {
    assert !IsWordChar("hyphen-here"[6]);
    assert !IsWordChar("space here"[5]);
  }

  /** The tokens of a parameter list: `t1 n1 , t2 n2 , ...`. */
  function ParamTokens(args: seq<(string, string)>): seq<string> {
    if args == [] then [] else [args[0].0, args[0].1] + MoreParamTokens(args[1..])
  }

  function MoreParamTokens(args: seq<(string, string)>): seq<string> {
    if args == [] then [] else [",", args[0].0, args[0].1] + MoreParamTokens(args[1..])
  }

  /** Both parts of every parameter are identifiers. */
  predicate ValidParams(args: seq<(string, string)>) {
    args == [] || (ValidName(args[0].0) && ValidName(args[0].1) && ValidParams(args[1..]))
  }

  /** One `, type name` step of `ParseMoreParams`. */
  lemma MoreParamsStep(ts: seq<string>, acc: seq<(string, string)>, p: (string, string), tail: seq<string>)
    requires ValidateName(p.0).Pass? && ValidateName(p.1).Pass? && ts == [",", p.0, p.1] + tail
    ensures ParseMoreParams(ts, acc) == ParseMoreParams(tail, acc + [p])
  {
    assert ts[1..][2..] == tail;
  }

  lemma {:induction false} MoreParamsRoundTrip(acc: seq<(string, string)>, args: seq<(string, string)>, rest: seq<string>)
    requires ValidParams(args) && rest != [] && rest[0] != ","
    ensures ParseMoreParams(MoreParamTokens(args) + rest, acc) == Ok((acc + args, rest))
    decreases |args|
  {
    if args == [] {
      assert acc + args == acc;
      assert MoreParamTokens(args) + rest == rest;
    } else {
      var tail := MoreParamTokens(args[1..]) + rest;
      MoreTokensUnfold(args, rest);
      MoreParamsStep(MoreParamTokens(args) + rest, acc, args[0], tail);
      MoreParamsRoundTrip(acc + [args[0]], args[1..], rest);
      AccUnfold(acc, args);
    }
  }

  /** The tokens of a non-empty list of further pairs: its first pair, then the
      rest. */
  lemma MoreTokensUnfold(args: seq<(string, string)>, rest: seq<string>)
    requires args != []
    ensures MoreParamTokens(args) + rest == [",", args[0].0, args[0].1] + (MoreParamTokens(args[1..]) + rest)
  {
  }

  lemma AccUnfold(acc: seq<(string, string)>, args: seq<(string, string)>)
    requires args != []
    ensures acc + [args[0]] + args[1..] == acc + args
  {
    assert [args[0]] + args[1..] == args;
  }

  lemma {:induction false} MoreParamsExact(ts: seq<string>, acc: seq<(string, string)>,
                                            args: seq<(string, string)>, rest: seq<string>)
    requires ParseMoreParams(ts, acc) == Ok((args, rest))
    ensures |args| >= |acc| && args[..|acc|] == acc && ValidParams(args[|acc|..])
    ensures ts == MoreParamTokens(args[|acc|..]) + rest && rest != [] && rest[0] != ","
    decreases |ts|
  {
    if ts[0] != "," {
      assert args[|acc|..] == [];
    } else {
      var q, tail := (ts[1], ts[2]), ts[3..];
      assert ValidName(q.0) && ValidName(q.1) && ParseMoreParams(tail, acc + [q]) == Ok((args, rest)) by {
        assert ParseParam(ts[1..], acc) == Ok((acc + [q], tail));
      }
      MoreParamsExact(tail, acc + [q], args, rest);
      var more := args[|acc| + 1..];
      ParamsSplit(acc, q, args);
      MoreParamsCons(q, more);
      assert ts == [",", q.0, q.1] + tail;
      assert ts == [",", q.0, q.1] + MoreParamTokens(more) + rest;
    }
  }

  /** An accumulator extended by `q` splits back into its parts. */
  lemma ParamsSplit(acc: seq<(string, string)>, q: (string, string), args: seq<(string, string)>)
    requires |args| >= |acc| + 1 && args[..|acc| + 1] == acc + [q]
    ensures args[..|acc|] == acc && args[|acc|..] == [q] + args[|acc| + 1..]
  {
    assert args[..|acc|] == args[..|acc| + 1][..|acc|];
    assert args[|acc|] == args[..|acc| + 1][|acc|];
  }

  /** The tokens and the validity of one more pair in front of a list. */
  lemma MoreParamsCons(q: (string, string), more: seq<(string, string)>)
    ensures MoreParamTokens([q] + more) == [",", q.0, q.1] + MoreParamTokens(more)
    ensures ValidParams([q] + more) <==> ValidName(q.0) && ValidName(q.1) && ValidParams(more)
  {
    assert ([q] + more)[0] == q && ([q] + more)[1..] == more;
  }

  /** One validated `type name` pair. */
  lemma ParamStep(ts: seq<string>, acc: seq<(string, string)>, p: (string, string), rest: seq<string>)
    requires ValidateName(p.0).Pass? && ValidateName(p.1).Pass? && ts == [p.0, p.1] + rest
    ensures ParseParam(ts, acc) == Ok((acc + [p], rest))
  {
    assert ts[2..] == rest;
  }

  /** `parse_args` is the first pair, the further pairs, then `)` and `{`. */
  lemma ArgsUnfold(ts: seq<string>)
    requires ts != [] && FirstParam(ts).Ok?
    requires ParseMoreParams(FirstParam(ts).value.1, FirstParam(ts).value.0).Ok?
    ensures ParseArgs(ts) == ParseArgsTail(ParseMoreParams(FirstParam(ts).value.1, FirstParam(ts).value.0).value)
  {
  }

  lemma ArgsRoundTrip(args: seq<(string, string)>, rest: seq<string>)
    requires ValidParams(args)
    ensures ParseArgs(ParamTokens(args) + [")", "{"] + rest) == Ok((args, rest))
  {
    var close := [")", "{"] + rest;
    assert ParamTokens(args) + [")", "{"] + rest == ParamTokens(args) + close;
    assert ParseArgsTail((args, close)) == Ok((args, rest)) by { assert close[2..] == rest; }
    if args == [] {
      MoreParamsRoundTrip([], [], close);
      assert ParamTokens(args) + close == close;
    } else {
      ArgsRoundTripCons(args, close);
    }
  }

  lemma ArgsRoundTripCons(args: seq<(string, string)>, close: seq<string>)
    requires ValidParams(args) && args != [] && close != [] && close[0] == ")"
    ensures ParseArgs(ParamTokens(args) + close) == ParseArgsTail((args, close))
  {
    var tail := MoreParamTokens(args[1..]) + close;
    assert ParamTokens(args) + close == [args[0].0, args[0].1] + tail;
    FirstOfCons(args[0], tail);
    MoreParamsRoundTrip([args[0]], args[1..], close);
    assert [args[0]] + args[1..] == args;
    ArgsUnfold(ParamTokens(args) + close);
  }

  /** A first pair of valid names is read by `ParseParam`. */
  lemma FirstOfCons(p: (string, string), tail: seq<string>)
    requires ValidName(p.0) && ValidName(p.1)
    ensures FirstParam([p.0, p.1] + tail) == Ok(([p], tail))
  {
    var ts := [p.0, p.1] + tail;
    assert ts[0] != ")" by {
      assert !ValidName(")") by { assert !IsLetter(")"[0]); }
    }
    ParamStep(ts, [], p, tail);
    assert [] + [p] == [p];
  }

  lemma ArgsExact(ts: seq<string>)
    requires ParseArgs(ts).Ok?
    ensures var args, rest := ParseArgs(ts).value.0, ParseArgs(ts).value.1;
      ValidParams(args) && ts == ParamTokens(args) + [")", "{"] + rest
  {
    var args, rest := ParseArgs(ts).value.0, ParseArgs(ts).value.1;
    var first := FirstParam(ts).value;
    var more := ParseMoreParams(first.1, first.0).value;
    assert more == (args, [")", "{"] + rest) by {
      ArgsUnfold(ts);
      assert more.1 == more.1[..2] + more.1[2..];
      assert more.1[..2] == [")", "{"];
    }
    assert ValidParams(args) && ts == ParamTokens(args) + ([")", "{"] + rest) by {
      FirstExact(ts, args, [")", "{"] + rest);
    }
    assert ParamTokens(args) + ([")", "{"] + rest) == ParamTokens(args) + [")", "{"] + rest;
  }

  /** What the first pair and the further pairs consumed. */
  lemma FirstExact(ts: seq<string>, args: seq<(string, string)>, close: seq<string>)
    requires ts != [] && FirstParam(ts).Ok?
    requires ParseMoreParams(FirstParam(ts).value.1, FirstParam(ts).value.0) == Ok((args, close))
    ensures ValidParams(args) && ts == ParamTokens(args) + close
  {
    var first := FirstParam(ts).value;
    MoreParamsExact(first.1, first.0, args, close);
    if ts[0] != ")" {
      assert first == ([(ts[0], ts[1])], ts[2..]) by {
        assert [] + [(ts[0], ts[1])] == [(ts[0], ts[1])];
      }
      ParamsCons(ts, args, close);
    } else {
      assert args[0..] == args;
    }
  }

  /** A validated pair in front of a valid parameter list. */
  lemma ParamsCons(ts: seq<string>, args: seq<(string, string)>, close: seq<string>)
    requires |ts| >= 2 && ValidateName(ts[0]).Pass? && ValidateName(ts[1]).Pass?
    requires args != [] && args[..1] == [(ts[0], ts[1])]
    requires ValidParams(args[1..]) && ts[2..] == MoreParamTokens(args[1..]) + close
    ensures ValidParams(args) && ts == ParamTokens(args) + close
  {
    assert args[0] == (ts[0], ts[1]) by { assert args[0] == args[..1][0]; }
    assert ValidParams(args);
    assert ParamTokens(args) == [ts[0], ts[1]] + MoreParamTokens(args[1..]);
    PairThen(ts, MoreParamTokens(args[1..]), close);
  }

  /** Two tokens in front of `m + close`, regrouped. */
  lemma PairThen(ts: seq<string>, m: seq<string>, close: seq<string>)
    requires |ts| >= 2 && ts[2..] == m + close
    ensures ts == ([ts[0], ts[1]] + m) + close
  {
    assert ts == [ts[0], ts[1]] + ts[2..];
  }

  /** `parse_args` accepts exactly a comma-separated list of validated
      `type name` pairs followed by `)` and `{`, and returns those pairs. */
  lemma ArgsGrammar(ts: seq<string>, args: seq<(string, string)>, rest: seq<string>)
    ensures ParseArgs(ts) == Ok((args, rest)) <==>
      ValidParams(args) && ts == ParamTokens(args) + [")", "{"] + rest
  {
    if ValidParams(args) && ts == ParamTokens(args) + [")", "{"] + rest {
      ArgsRoundTrip(args, rest);
    }
    if ParseArgs(ts) == Ok((args, rest)) {
      ArgsExact(ts);
    }
  }

  /** The brace balance of one token. */
  function Delta(t: string): int {
    if t == "{" then 1 else if t == "}" then -1 else 0
  }

  /** Opened minus closed braces. */
  function Depth(ts: seq<string>): int {
    if ts == [] then 0 else Delta(ts[0]) + Depth(ts[1..])
  }

  /** Every prefix closes no more braces than it opens, and the whole closes all. */
  predicate Balanced(body: seq<string>) {
    Depth(body) == 0 && forall i :: 0 <= i <= |body| ==> Depth(body[..i]) >= 0
  }

  lemma {:induction false} DepthFront(ts: seq<string>, i: nat)
    requires 1 <= i <= |ts|
    ensures Depth(ts[..i]) == Delta(ts[0]) + Depth(ts[1..][..i - 1])
  {
    assert ts[..i][0] == ts[0] && ts[..i][1..] == ts[1..][..i - 1];
  }

  lemma {:induction false} BodyScanBalanced(body: seq<string>, rest: seq<string>, d: nat, acc: seq<string>)
    requires d >= 1
    requires forall i :: 0 <= i <= |body| ==> d + Depth(body[..i]) >= 1
    requires d + Depth(body) == 1
    ensures BodyScan(body + ["}"] + rest, d, acc) == Ok((acc + body + ["}"], rest))
    decreases |body|
  {
    var ts := body + ["}"] + rest;
    if body == [] {
      assert ts[0] == "}" && ts[1..] == rest;
      assert acc + body + ["}"] == acc + ["}"];
    } else {
      var v := body[0];
      var d' := d + Delta(v);
      DepthFront(body, 1);
      assert body[1..][..0] == [];
      forall i | 0 <= i <= |body[1..]| ensures d' + Depth(body[1..][..i]) >= 1 {
        DepthFront(body, i + 1);
      }
      assert body[..|body|] == body;
      DepthFront(body, |body|);
      assert body[1..][..|body| - 1] == body[1..];
      assert ts[0] == v && ts[1..] == body[1..] + ["}"] + rest;
      BodyScanBalanced(body[1..], rest, d', acc + [v]);
      assert acc + [v] + body[1..] == acc + body;
    }
  }

  /** The scan takes a prefix of the tokens whose last token is `}`. */
  lemma {:induction false} BodyScanShape(ts: seq<string>, d: nat, acc: seq<string>)
    requires d >= 1 && BodyScan(ts, d, acc).Ok?
    ensures var out, rest := BodyScan(ts, d, acc).value.0, BodyScan(ts, d, acc).value.1;
      var k := |out| - |acc| - 1;
      0 <= k < |ts| && ts[k] == "}" && out == acc + ts[..k + 1] && rest == ts[k + 1..]
    decreases |ts|
  {
    var v := ts[0];
    var d' := if v == "{" then d + 1 else if v == "}" then d - 1 else d;
    if d' == 0 {
      assert ts[..1] == [v];
    } else {
      BodyScanShape(ts[1..], d', acc + [v]);
      var out := BodyScan(ts, d, acc).value.0;
      var k := |out| - |acc| - 1;
      assert [v] + ts[1..][..k] == ts[..k + 1];
      assert ts[1..][k..] == ts[k + 1..];
    }
  }

  /** No prefix of what the scan takes closes the opened braces before its last token. */
  lemma {:induction false} BodyScanDepth(ts: seq<string>, d: nat, acc: seq<string>, k: nat)
    requires d >= 1 && BodyScan(ts, d, acc).Ok? && k == |BodyScan(ts, d, acc).value.0| - |acc| - 1
    ensures k < |ts| && (forall i :: 0 <= i <= k ==> d + Depth(ts[..i]) >= 1) && d + Depth(ts[..k]) == 1
    decreases |ts|
  {
    var v := ts[0];
    var d' := if v == "{" then d + 1 else if v == "}" then d - 1 else d;
    if d' == 0 {
      assert ts[..0] == [];
    } else {
      BodyScanDepth(ts[1..], d', acc + [v], k - 1);
      forall i | 0 <= i <= k ensures d + Depth(ts[..i]) >= 1 {
        if i >= 1 { DepthFront(ts, i); }
      }
      DepthFront(ts, k);
    }
  }

  /** `parse_body` returns the balanced tokens before the `}` that closes the
      opened brace, joined with spaces, and leaves what follows that `}`. */
  lemma BodyRoundTrip(body: seq<string>, rest: seq<string>)
    requires Balanced(body)
    ensures ParseBody(body + ["}"] + rest) == Ok((Join(body, " "), rest))
  {
    forall i | 0 <= i <= |body| ensures 1 + Depth(body[..i]) >= 1 { }
    assert body[..|body|] == body;
    BodyScanBalanced(body, rest, 1, []);
    assert ([] + body + ["}"])[..|body|] == body;
  }

  /** Conversely, whatever `parse_body` accepts is a balanced body and its `}`. */
  lemma BodyExact(ts: seq<string>)
    requires ParseBody(ts).Ok?
    ensures var s, rest := ParseBody(ts).value.0, ParseBody(ts).value.1;
      var body := ts[..|ts| - |rest| - 1];
      |rest| < |ts| && Balanced(body) && ts == body + ["}"] + rest && s == Join(body, " ")
  {
    BodyScanShape(ts, 1, []);
    var out := BodyScan(ts, 1, []).value.0;
    var k := |out| - 1;
    BodyScanDepth(ts, 1, [], k);
    var body := ts[..k];
    assert |ts| - |ParseBody(ts).value.1| - 1 == k;
    forall i | 0 <= i <= |body| ensures Depth(body[..i]) >= 0 {
      assert body[..i] == ts[..i];
    }
    assert ts == body + ["}"] + ts[k + 1..];
    assert out[..|out| - 1] == body;
  }

  /** One token of an assignment value. */
  lemma AssignValueStep(t: string, tail: seq<string>, acc: seq<string>)
    requires t != ";"
    ensures AssignValue([t] + tail, acc) == AssignValue(tail, acc + [t])
  {
    assert ([t] + tail)[1..] == tail;
  }

  /** The value of an assignment runs up to the first `;`. */
  lemma {:induction false} AssignValueExact(vs: seq<string>, rest: seq<string>, acc: seq<string>)
    requires ";" !in vs
    ensures AssignValue(vs + [";"] + rest, acc) == Ok((acc + vs, [";"] + rest))
    decreases |vs|
  {
    if vs == [] {
      assert vs + [";"] + rest == [";"] + rest;
      assert acc + vs == acc;
    } else {
      assert vs + [";"] + rest == [vs[0]] + (vs[1..] + [";"] + rest);
      AssignValueStep(vs[0], vs[1..] + [";"] + rest, acc);
      AssignValueExact(vs[1..], rest, acc + [vs[0]]);
      assert acc + [vs[0]] + vs[1..] == acc + vs;
    }
  }

  /** `read_assign` takes the tokens through the first `;` as the value, which
      must not be empty. */
  lemma AssignGrammar(name: string, vs: seq<string>, rest: seq<string>)
    requires ";" !in vs
    ensures ParseAssign(name, vs + [";"] + rest) ==
      if ValidateName(name).Fail? then Err(ValidateName(name).error)
      else if vs == [] then Err(SyntaxError("No expression found on right side of ="))
      else Ok((AssignStmt(name, Join(vs + [";"], " ")), rest))
  {
    AssignValueExact(vs, rest, []);
    assert [] + vs == vs;
    assert ([";"] + rest)[1..] == rest;
  }

  /** Without a `;` the value never ends. */
  lemma AssignNeedsSemicolon(name: string, ts: seq<string>)
    requires ";" !in ts && ValidateName(name).Pass?
    ensures ParseAssign(name, ts) == Err(EndOfInput)
  {
    AssignValueUnterminated(ts, []);
  }

  lemma {:induction false} AssignValueUnterminated(ts: seq<string>, acc: seq<string>)
    requires ";" !in ts
    ensures AssignValue(ts, acc) == Err(EndOfInput)
    decreases |ts|
  {
    if ts != [] {
      assert ts == [ts[0]] + ts[1..];
      AssignValueUnterminated(ts[1..], acc + [ts[0]]);
    }
  }

  /** After the type and a valid name, `;` ends a declaration, `=` ends it and
      pushes the name back for the assignment that follows, `(` starts a
      method; any other token is an error. */
  lemma DeclareDispatch(p: bool, st: bool, dtype: string, name: string, t: string, ts: seq<string>)
    requires ValidateName(name).Pass?
    ensures ParseDeclare(p, st, dtype, [name, ";"] + ts) == Ok((DeclareStmt(name, dtype, p, st), ts))
    ensures ParseDeclare(p, st, dtype, [name, "="] + ts) == Ok((DeclareStmt(name, dtype, p, st), [name, "="] + ts))
    ensures ParseDeclare(p, st, dtype, [name, "("] + ts) == ParseMethod(p, st, dtype, name, ts)
    ensures t != ";" && t != "=" && t != "(" ==>
      ParseDeclare(p, st, dtype, [name, t] + ts) == Err(SyntaxError("Unexpected token: " + t))
  {
    assert name != "(" by { assert !IsLetter("("[0]); }
    assert ([name, ";"] + ts)[1..][1..] == ts;
    assert ([name, "("] + ts)[1..][1..] == ts;
    assert [name] + ([name, "="] + ts)[1..] == [name, "="] + ts;
  }

  /** `(` in place of the name starts a constructor, which cannot be static. */
  lemma ConstructorDispatch(p: bool, dtype: string, ts: seq<string>)
    ensures ParseDeclare(p, true, dtype, ["("] + ts) == Err(SyntaxError("Constructor can't be static"))
    ensures ParseDeclare(p, false, dtype, ["("] + ts) == ParseConstructor(p, dtype, ts)
  {
    assert (["("] + ts)[1..] == ts;
  }

  /** A statement without modifiers or `static`. */
  lemma PlainHeader(ts: seq<string>)
    requires ts != [] && !IsModifier(ts[0]) && ts[0] != "static"
    ensures ParseHeader(ts) == Ok(Header(false, false, ts[0], ts[1..]))
  {
  }

  /** A modifier followed by a token other than `static`. */
  lemma ModifierHeader(ts: seq<string>)
    requires |ts| >= 3 && IsModifier(ts[0]) && ts[1] != "static"
    ensures ParseHeader(ts) == Ok(Header(ts[0] == "private", false, ts[1], ts[2..]))
  {
    assert ts[1..][1..] == ts[2..];
  }

  /** Without modifiers, `name = ...` is an assignment and any other
      non-class statement a declaration. */
  lemma PlainStatement(ts: seq<string>)
    requires |ts| >= 2 && !IsModifier(ts[0]) && ts[0] != "static" && ts[0] != "class"
    ensures ts[1] == "=" ==> ParseStatement(ts) == ParseAssign(ts[0], ts[2..])
    ensures ts[1] != "=" ==> ParseStatement(ts) == ParseDeclare(false, false, ts[0], ts[1..])
  {
    PlainHeader(ts);
    assert ts[1..][1..] == ts[2..];
  }

  /** `read_line` reads one statement, then the rest of the line. */
  lemma LineStep(ts: seq<string>, acc: seq<Statement>)
    requires ts != [] && ParseStatement(ts).Ok?
    ensures ParseLine(ts, acc) == ParseLine(ParseStatement(ts).value.1, acc + [ParseStatement(ts).value.0])
  {
  }

  /** A line of exactly two statements. */
  lemma LineOfTwo(ts: seq<string>, ts2: seq<string>, d: Statement, e: Statement)
    requires ts != [] && ts2 != []
    requires ParseStatement(ts) == Ok((d, ts2)) && ParseStatement(ts2) == Ok((e, []))
    ensures ParseLine(ts, []) == Ok([d, e])
  {
    assert ParseLine(ts, []) == ParseLine(ts2, [d]) by { LineStep(ts, []); assert [] + [d] == [d]; }
    assert ParseLine(ts2, [d]) == ParseLine([], [d, e]) by { LineStep(ts2, [d]); assert [d] + [e] == [d, e]; }
  }

  /** `int x = 3;` reads as a declaration followed by an assignment. */
  lemma DeclareThenAssign(dtype: string, name: string, vs: seq<string>)
    requires !IsModifier(dtype) && dtype != "static" && dtype != "class"
    requires !IsModifier(name) && name != "static" && name != "class"
    requires ValidateName(name).Pass? && vs != [] && ";" !in vs
    ensures ParseLine([dtype, name, "="] + vs + [";"], []) ==
      Ok([DeclareStmt(name, dtype, false, false), AssignStmt(name, Join(vs + [";"], " "))])
  {
    var d, e := DeclareStmt(name, dtype, false, false), AssignStmt(name, Join(vs + [";"], " "));
    var ts2 := [name, "="] + (vs + [";"]);
    var ts := [dtype] + ts2;
    assert ts == [dtype, name, "="] + vs + [";"];
    assert ParseStatement(ts) == Ok((DeclareStmt(name, dtype, false, false), ts2)) by {
      NameFails("=");
      PlainStatement(ts);
      assert ts[1..] == ts2;
      DeclareDispatch(false, false, dtype, name, "=", vs + [";"]);
    }
    assert ParseStatement(ts2) == Ok((AssignStmt(name, Join(vs + [";"], " ")), [])) by {
      PlainStatement(ts2);
      assert ts2[2..] == vs + [";"] + [];
      AssignGrammar(name, vs, []);
    }
    LineOfTwo(ts, ts2, d, e);
  }

  /** A class header: a validated name, an optional validated superclass, then `{`. */
  lemma ClassNoSuper(p: bool, name: string, rest: seq<string>)
    requires ValidateName(name).Pass?
    ensures ParseClass(p, [name, "{", "}"] + rest) == Ok((ClassStmt(name, [], None, p), rest))
  {
    var a := [name, "{", "}"] + rest;
    assert a[1..] == ["{", "}"] + rest && a[1..][1..] == ["}"] + rest;
    assert (["}"] + rest)[1..] == rest;
  }

  lemma ClassWithSuper(p: bool, name: string, sup: string, rest: seq<string>)
    requires ValidateName(name).Pass? && ValidateName(sup).Pass?
    ensures ParseClass(p, [name, "extends", sup, "{", "}"] + rest) == Ok((ClassStmt(name, [], Some(sup), p), rest))
  {
    var b := [name, "extends", sup, "{", "}"] + rest;
    assert b[1..][2..] == ["{", "}"] + rest;
    assert (["{", "}"] + rest)[1..] == ["}"] + rest;
    assert (["}"] + rest)[1..] == rest;
  }

  lemma ClassBadSuper(p: bool, name: string, sup: string, rest: seq<string>)
    requires ValidateName(name).Pass? && ValidateName(sup).Fail?
    ensures ParseClass(p, [name, "extends", sup] + rest) == Err(InvalidIdentifier(sup))
  {
    var c := [name, "extends", sup] + rest;
    assert c[1..][1] == sup;
  }

  lemma ClassNoBrace(p: bool, name: string, t: string, rest: seq<string>)
    requires ValidateName(name).Pass? && t != "{" && t != "extends"
    ensures ParseClass(p, [name, t] + rest) == Err(SyntaxError("expected {"))
  {
    assert ([name, t] + rest)[1..] == [t] + rest;
  }

  /** The members of a class body, one statement at a time, up to its `}`. */
  lemma MembersStep(ts: seq<string>, acc: seq<Statement>)
    requires ts != [] && ts[0] != "}" && ParseStatement(ts).Ok?
    ensures ParseMembers(ts, acc) == ParseMembers(ParseStatement(ts).value.1, acc + [ParseStatement(ts).value.0])
  {
  }

  lemma MembersEnd(ts: seq<string>, acc: seq<Statement>)
    ensures ParseMembers(["}"] + ts, acc) == Ok((acc, ts))
  {
    assert (["}"] + ts)[1..] == ts;
  }

  /** A class without a superclass holds the members read after its `{`. */
  lemma ClassBody(p: bool, name: string, ts: seq<string>, members: seq<Statement>, rest: seq<string>)
    requires ValidateName(name).Pass? && ParseMembers(ts, []) == Ok((members, rest))
    ensures ParseClass(p, [name, "{"] + ts) == Ok((ClassStmt(name, members, None, p), rest))
  {
    assert ([name, "{"] + ts)[1..] == ["{"] + ts;
    assert (["{"] + ts)[1..] == ts;
  }

  /** `class private Ex {}` is rejected: after `class` comes the name, and a
      second name where `{` belongs. */
  lemma ModifierAfterClass()
    ensures ParseClass(false, ["private", "Ex", "{", "}"]) == Err(SyntaxError("expected {"))
  {
    NamePasses("private");
    ClassNoBrace(false, "private", "Ex", ["{", "}"]);
    assert ["private", "Ex"] + ["{", "}"] == ["private", "Ex", "{", "}"];
  }

  /** `class Ex extends {}` is rejected: `{` is not a superclass name. */
  lemma ExtendsWithoutName()
    ensures ParseClass(false, ["Ex", "extends", "{", "}"]) == Err(InvalidIdentifier("{"))
  {
    NamePasses("Ex");
    NameFails("{");
    ClassBadSuper(false, "Ex", "{", ["}"]);
    assert ["Ex", "extends", "{"] + ["}"] == ["Ex", "extends", "{", "}"];
  }

  // ---------------------------------------------------------------------------
  // The readers over the Buffer.

  /** `r` and the remaining tokens are what the grammar function gives. */
  predicate Matches<T(==)>(r: Result<T>, rest: seq<string>, spec: Parsed<T>) {
    match spec
    case Ok(p) => r == Ok(p.0) && rest == p.1
    case Err(e) => r == Err(e)
  }

  method ReadStatement(b: Buffer) returns (r: Result<Statement>)
    modifies b
    ensures Matches(r, b.Contents(), ParseStatement(old(b.Contents())))
    decreases |b.Contents()|, 1
  {
    var val :- b.Pop();
    var isPrivate := false;
    var isMod := IsModifier(val);
    if isMod {
      isPrivate := val == "private";
      val :- b.Pop();
    }
    var isStatic := false;
    if val == "static" {
      isStatic := true;
      val :- b.Pop();
    }
    if val == "class" {
      r := ReadClass(isPrivate, b);
    } else {
      var cur :- b.Current();
      if cur == "=" {
        var _ := b.Pop();
        r := ReadAssign(val, b);
      } else {
        r := ReadDeclare(isPrivate, isStatic, val, b);
      }
    }
  }

  method ReadClass(isPrivate: bool, b: Buffer) returns (r: Result<Statement>)
    modifies b
    ensures Matches(r, b.Contents(), ParseClass(isPrivate, old(b.Contents())))
    decreases |b.Contents()|, 0
  {
    ghost var ts := b.Contents();
    var name :- b.Pop();
    :- ValidateName(name);
    var superclass: Option<string> := None;
    var cur :- b.Current();
    if cur == "extends" {
      var _ := b.Pop();
      var sup :- b.Pop();
      :- ValidateName(sup);
      superclass := Some(sup);
    }
    assert ParseSuper(ts[1..]) == Ok((superclass, b.Contents()));
    var brace :- b.Pop();
    if brace != "{" {
      return Err(SyntaxError("expected {"));
    }
    var members :- ReadMembers(b);
    r := Ok(ClassStmt(name, members, superclass, isPrivate));
  }

  /** The member loop of `read_class`: statements until `}`, which is consumed. */
  method ReadMembers(b: Buffer) returns (r: Result<seq<Statement>>)
    modifies b
    ensures Matches(r, b.Contents(), ParseMembers(old(b.Contents()), []))
    decreases |b.Contents()|, 2
  {
    ghost var start := b.Contents();
    var members: seq<Statement> := [];
    while true
      invariant |b.Contents()| <= |start|
      invariant ParseMembers(b.Contents(), members) == ParseMembers(start, [])
      decreases |b.Contents()|
    {
      var cur :- b.Current();
      if cur == "}" {
        break;
      }
      var s :- ReadStatement(b);
      members := members + [s];
    }
    var _ := b.Pop();
    r := Ok(members);
  }

  method ReadDeclare(isPrivate: bool, isStatic: bool, dtype: string, b: Buffer) returns (r: Result<Statement>)
    modifies b
    ensures Matches(r, b.Contents(), ParseDeclare(isPrivate, isStatic, dtype, old(b.Contents())))
  {
    var name :- b.Pop();
    if name == "(" {
      if isStatic {
        return Err(SyntaxError("Constructor can't be static"));
      }
      r := ReadConstructor(isPrivate, dtype, b);
      return;
    }
    :- ValidateName(name);
    var cur :- b.Current();
    if cur == ";" {
      var _ := b.Pop();
    } else if cur == "=" {
      b.Prepend(name);
    } else if cur == "(" {
      var _ := b.Pop();
      r := ReadMethod(isPrivate, isStatic, dtype, name, b);
      return;
    } else {
      return Err(SyntaxError("Unexpected token: " + cur));
    }
    r := Ok(DeclareStmt(name, dtype, isPrivate, isStatic));
  }

  method ReadAssign(name: string, b: Buffer) returns (r: Result<Statement>)
    modifies b
    ensures Matches(r, b.Contents(), ParseAssign(name, old(b.Contents())))
  {
    var named := ValidateName(name);
    :- named;
    ghost var ts := b.Contents();
    var value: seq<string> := [];
    var cur :- b.Current();
    while cur != ";"
      invariant AssignValue(b.Contents(), value) == AssignValue(ts, [])
      invariant b.Contents() != [] && cur == b.Contents()[0]
      decreases |b.Contents()|
    {
      var t := b.Pop();
      value := value + [t.value];
      cur :- b.Current();
    }
    if value == [] {
      return Err(SyntaxError("No expression found on right side of ="));
    }
    var semi := b.Pop();
    value := value + [semi.value];
    r := Ok(AssignStmt(name, Join(value, " ")));
  }

  method ReadMethod(isPrivate: bool, isStatic: bool, dtype: string, name: string, b: Buffer)
    returns (r: Result<Statement>)
    modifies b
    ensures Matches(r, b.Contents(), ParseMethod(isPrivate, isStatic, dtype, name, old(b.Contents())))
  {
    var named := ValidateName(name);
    :- named;
    var args :- ReadArgs(b);
    var body :- ReadBody(b);
    r := Ok(MethodStmt(name, dtype, args, body, isPrivate, isStatic));
  }

  method ReadConstructor(isPrivate: bool, dtype: string, b: Buffer) returns (r: Result<Statement>)
    modifies b
    ensures Matches(r, b.Contents(), ParseConstructor(isPrivate, dtype, old(b.Contents())))
  {
    var args :- ReadArgs(b);
    var body :- ReadBody(b);
    r := Ok(ConstructorStmt(dtype, args, body, isPrivate));
  }

  /** `parse_args`. */
  method ReadArgs(b: Buffer) returns (r: Result<seq<(string, string)>>)
    modifies b
    ensures Matches(r, b.Contents(), ParseArgs(old(b.Contents())))
  {
    ghost var ts := b.Contents();
    var args: seq<(string, string)> := [];
    var cur :- b.Current();
    if cur != ")" {
      args :- ReadParam(b, args);
    }
    ghost var mid, midArgs := b.Contents(), args;
    assert ParseArgs(ts) == (var more :- ParseMoreParams(mid, midArgs); ParseArgsTail(more));
    cur :- b.Current();
    while cur == ","
      invariant ParseMoreParams(b.Contents(), args) == ParseMoreParams(mid, midArgs)
      invariant b.Contents() != [] && cur == b.Contents()[0]
      decreases |b.Contents()|
    {
      var _ := b.Pop();
      args :- ReadParam(b, args);
      cur :- b.Current();
    }
    var close := b.Pop();
    if close.value != ")" {
      return Err(SyntaxError("expected )"));
    }
    var open :- b.Pop();
    if open != "{" {
      return Err(SyntaxError("expected {"));
    }
    r := Ok(args);
  }

  /** One validated `type name` pair taken from the buffer. */
  method ReadParam(b: Buffer, acc: seq<(string, string)>) returns (r: Result<seq<(string, string)>>)
    modifies b
    ensures Matches(r, b.Contents(), ParseParam(old(b.Contents()), acc))
  {
    var cur :- b.Current();
    :- ValidateName(cur);
    var dtype := b.Pop();
    cur :- b.Current();
    :- ValidateName(cur);
    var name := b.Pop();
    r := Ok(acc + [(dtype.value, name.value)]);
  }

  /** `parse_body`. */
  method ReadBody(b: Buffer) returns (r: Result<string>)
    modifies b
    ensures Matches(r, b.Contents(), ParseBody(old(b.Contents())))
  {
    ghost var ts := b.Contents();
    var body: seq<string> := [];
    var braces: nat := 1;
    while braces != 0
      invariant braces == 0 ==> BodyScan(ts, 1, []) == Ok((body, b.Contents())) && body != []
      invariant braces != 0 ==> BodyScan(b.Contents(), braces, body) == BodyScan(ts, 1, [])
      decreases |b.Contents()|, braces
    {
      var val :- b.Pop();
      if val == "{" {
        braces := braces + 1;
      } else if val == "}" {
        braces := braces - 1;
      }
      body := body + [val];
    }
    r := Ok(Join(body[..|body| - 1], " "));
  }

  /** `read_line`. */
  method ReadLine(line: string) returns (r: Result<seq<Statement>>)
    ensures r == ParseLine(Lexer.Tokens(line, Lexer.CharSet(Lexer.DELIMS)), [])
  {
    var b := new Buffer(line);
    var statements: seq<Statement> := [];
    while !b.Empty()
      invariant ParseLine(b.Contents(), statements) == ParseLine(Lexer.Tokens(line, Lexer.CharSet(Lexer.DELIMS)), [])
      decreases |b.Contents()|
    {
      var s :- ReadStatement(b);
      statements := statements + [s];
    }
    r := Ok(statements);
  }
}
