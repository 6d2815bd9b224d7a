/** The parser of the frontend draft (frontend/compile_parse.py).

    It reads the same grammar as the compiler draft from a plain Python list,
    taking tokens with `pop(0)` and pushing one back with `insert(0, ...)`, and
    builds dictionaries with an 'op' key instead of Statement objects.  An
    exhausted list raises IndexError where the compiler's buffer would have
    asked for more input.  The drafts also differ in four rules: modifiers are
    matched case-sensitively, a declaration followed by an unexpected token is
    accepted and leaves that token, an assignment checks neither its name nor
    its value, and a method's name is not checked by `read_method`. */
module FrontendParse {
  import opened Wrappers
  import opened PyText
  import opened Statements
  import CompileParse
  import Lexer

  type Parsed<T> = CompileParse.Parsed<T>

  const MODIFIERS: seq<string> := ["public", "protected", "private"]

  /** A failure of the compiler draft's reader, with running out of tokens
      reported as the IndexError of `list.pop(0)` or `tokens[i]`. */
  function Relabel<T>(r: Result<T>): (s: Result<T>)
    ensures s.Ok? <==> r.Ok?
    ensures r.Ok? ==> s == r
    ensures r.Err? && r.error != EndOfInput ==> s == r
    ensures r.Err? && r.error == EndOfInput ==> s == Err(IndexError)
  {
    if r.Err? && r.error == EndOfInput then Err(IndexError) else r
  }

  // ---------------------------------------------------------------------------
  // The dictionaries the readers return.

  function ClassDict(name: string, body: seq<Dict>, superclass: Option<string>, isPrivate: bool): Dict {
    map["op" := Str("class"), "name" := Str(name), "body" := Dicts(body),
        "super" := OptionValue(superclass), "private" := Bool(isPrivate)]
  }

  function DeclareDict(name: string, dtype: string, isPrivate: bool, isStatic: bool): Dict {
    map["op" := Str("declare"), "name" := Str(name), "type" := Str(dtype),
        "private" := Bool(isPrivate), "static" := Bool(isStatic)]
  }

  function AssignDict(name: string, value: string): Dict {
    map["op" := Str("assign"), "name" := Str(name), "value" := Str(value)]
  }

  function MethodDict(name: string, dtype: string, args: seq<(string, string)>, body: string,
                      isPrivate: bool, isStatic: bool): Dict {
    map["op" := Str("method"), "name" := Str(name), "type" := Str(dtype), "args" := Pairs(args),
        "body" := Str(body), "private" := Bool(isPrivate), "static" := Bool(isStatic)]
  }

  function ConstructorDict(name: string, args: seq<(string, string)>, body: string, isPrivate: bool): Dict {
    map["op" := Str("constructor"), "name" := Str(name), "args" := Pairs(args), "body" := Str(body),
        "private" := Bool(isPrivate)]
  }

  // ---------------------------------------------------------------------------
  // The grammar, as functions over the token list.

  /** `read_statement`: optional modifier (matched exactly), optional `static`,
      then a class, an assignment (`name =`) or a declaration. */
  function ParseStatement(ts: seq<string>): (r: Parsed<Dict>)
    ensures r.Ok? ==> |r.value.1| < |ts|
    decreases |ts|, 1
  {
    var h :- ParseHeader(ts);
    if h.val == "class" then ParseClass(h.isPrivate, h.rest)
    else if h.rest == [] then Err(IndexError)
    else if h.rest[0] == "=" then ParseAssign(h.val, h.rest[1..])
    else ParseDeclare(h.isPrivate, h.isStatic, h.val, h.rest)
  }

  /** The modifier and `static` in front of a statement and the token after them. */
  function ParseHeader(ts: seq<string>): (r: Result<CompileParse.Header>)
    ensures r.Ok? ==> ts != [] && |r.value.rest| < |ts|
    ensures r.Err? ==> r.error == IndexError
  {
    if ts == [] then Err(IndexError)
    else
      var isMod := ts[0] in MODIFIERS;
      if isMod && |ts| == 1 then Err(IndexError)
      else
        var ts1 := if isMod then ts[1..] else ts;
        var isStatic := ts1[0] == "static";
        if isStatic && |ts1| == 1 then Err(IndexError)
        else
          var ts2 := if isStatic then ts1[1..] else ts1;
          Ok(CompileParse.Header(isMod && ts[0] == "private", isStatic, ts2[0], ts2[1..]))
  }

  /** `read_class`, after the `class` keyword. */
  function ParseClass(isPrivate: bool, ts: seq<string>): (r: Parsed<Dict>)
    ensures r.Ok? ==> |r.value.1| < |ts|
    decreases |ts|, 0
  {
    if ts == [] then Err(IndexError)
    else
      var name := ts[0];
      :- CompileParse.ValidateName(name);
      var sup :- ParseSuper(ts[1..]);
      var ts2 := sup.1;
      if ts2 == [] then Err(IndexError)
      else if ts2[0] != "{" then Err(SyntaxError("expected {"))
      else
        var members :- ParseMembers(ts2[1..], []);
        Ok((ClassDict(name, members.0, sup.0, isPrivate), members.1))
  }

  /** The optional `extends superclass`. */
  function ParseSuper(ts: seq<string>): (r: Parsed<Option<string>>)
    ensures r.Ok? ==> |r.value.1| <= |ts|
    ensures r.Ok? && r.value.0.None? ==> r.value.1 == ts
  {
    if ts == [] then Err(IndexError)
    else if ts[0] != "extends" then Ok((None, ts))
    else if |ts| == 1 then Err(IndexError)
    else
      :- CompileParse.ValidateName(ts[1]);
      Ok((Some(ts[1]), ts[2..]))
  }

  /** Member statements while tokens remain and the next is not `}`; running
      out before the `}` is a SyntaxError. */
  function ParseMembers(ts: seq<string>, acc: seq<Dict>): (r: Parsed<seq<Dict>>)
    ensures r.Ok? ==> |r.value.1| < |ts|
    decreases |ts|, 2
  {
    if ts == [] then Err(SyntaxError("expected }"))
    else if ts[0] == "}" then Ok((acc, ts[1..]))
    else
      var s :- ParseStatement(ts);
      ParseMembers(s.1, acc + [s.0])
  }

  /** `read_declare`, after the type.  A token other than `;`, `=` or `(` after
      the name ends the declaration and is left in the list. */
  function ParseDeclare(isPrivate: bool, isStatic: bool, dtype: string, ts: seq<string>): (r: Parsed<Dict>)
    ensures r.Ok? ==> |r.value.1| <= |ts|
  {
    if ts == [] then Err(IndexError)
    else
      var name, ts1 := ts[0], ts[1..];
      if name == "(" then
        if isStatic then Err(SyntaxError("Constructor can't be static"))
        else ParseConstructor(isPrivate, dtype, ts1)
      else
        :- CompileParse.ValidateName(name);
        if ts1 == [] then Err(IndexError)
        else if ts1[0] == ";" then Ok((DeclareDict(name, dtype, isPrivate, isStatic), ts1[1..]))
        else if ts1[0] == "=" then Ok((DeclareDict(name, dtype, isPrivate, isStatic), [name] + ts1))
        else if ts1[0] == "(" then ParseMethod(isPrivate, isStatic, dtype, name, ts1[1..])
        else Ok((DeclareDict(name, dtype, isPrivate, isStatic), ts1))
  }

  /** `read_assign`, after the `=`: the tokens through the first `;`, joined;
      neither the name nor the value is checked. */
  function ParseAssign(name: string, ts: seq<string>): (r: Parsed<Dict>)
    ensures r.Ok? ==> |r.value.1| < |ts|
  {
    var v :- Relabel(CompileParse.AssignValue(ts, []));
    Ok((AssignDict(name, Join(v.0 + [";"], " ")), v.1[1..]))
  }

  /** `read_method`, after the `(`; the name is taken as given. */
  function ParseMethod(isPrivate: bool, isStatic: bool, dtype: string, name: string, ts: seq<string>)
    : (r: Parsed<Dict>)
    ensures r.Ok? ==> |r.value.1| < |ts|
  {
    var args :- ParseArgs(ts);
    var body :- ParseBody(args.1);
    Ok((MethodDict(name, dtype, args.0, body.0, isPrivate, isStatic), body.1))
  }

  /** `read_constructor`, after the `(`. */
  function ParseConstructor(isPrivate: bool, dtype: string, ts: seq<string>): (r: Parsed<Dict>)
    ensures r.Ok? ==> |r.value.1| < |ts|
  {
    var args :- ParseArgs(ts);
    var body :- ParseBody(args.1);
    Ok((ConstructorDict(dtype, args.0, body.0, isPrivate), body.1))
  }

  /** `parse_args`: the pairs are read as in the compiler draft; the closing
      `)` and `{` are checked together, with one message for both. */
  function ParseArgs(ts: seq<string>): (r: Parsed<seq<(string, string)>>)
    ensures r.Ok? ==> |r.value.1| + 2 <= |ts|
  {
    if ts == [] then Err(IndexError)
    else
      var first :- Relabel(CompileParse.FirstParam(ts));
      var more :- Relabel(CompileParse.ParseMoreParams(first.1, first.0));
      ArgsTail(more)
  }

  /** `tokens[0] != ')' or tokens[1] != '{'`, then both are popped. */
  function ArgsTail(more: (seq<(string, string)>, seq<string>)): (r: Parsed<seq<(string, string)>>)
    ensures r.Ok? <==> |more.1| >= 2 && more.1[0] == ")" && more.1[1] == "{"
    ensures r.Ok? ==> r.value == (more.0, more.1[2..])
  {
    var ts3 := more.1;
    if ts3 == [] then Err(IndexError)
    else if ts3[0] != ")" then Err(SyntaxError("method declaration is invalid"))
    else if |ts3| == 1 then Err(IndexError)
    else if ts3[1] != "{" then Err(SyntaxError("method declaration is invalid"))
    else Ok((more.0, ts3[2..]))
  }

  /** `parse_body`: the brace-depth scan of the compiler draft. */
  function ParseBody(ts: seq<string>): (r: Parsed<string>)
    ensures r.Ok? ==> |r.value.1| < |ts|
  {
    Relabel(CompileParse.ParseBody(ts))
  }

  /** `read_line`: statements while tokens remain. */
  function ParseLine(ts: seq<string>, acc: seq<Dict>): (r: Result<seq<Dict>>)
    decreases |ts|
  {
    if ts == [] then Ok(acc)
    else
      var s :- ParseStatement(ts);
      ParseLine(s.1, acc + [s.0])
  }

  // ---------------------------------------------------------------------------
  // What the frontend grammar accepts, and where it parts from the compiler's.

  /** `parse_args` accepts exactly what the compiler draft accepts and returns
      the same pairs; only the errors differ. */
  lemma ArgsAgree(ts: seq<string>)
    ensures ParseArgs(ts).Ok? <==> CompileParse.ParseArgs(ts).Ok?
    ensures ParseArgs(ts).Ok? ==> ParseArgs(ts) == CompileParse.ParseArgs(ts)
  {
    if ts != [] && CompileParse.FirstParam(ts).Ok? {
      var first := CompileParse.FirstParam(ts).value;
      if CompileParse.ParseMoreParams(first.1, first.0).Ok? {
        CompileParse.ArgsUnfold(ts);
      }
    }
  }

  /** The frontend's `parse_args` reads exactly a list of validated pairs
      followed by `)` and `{`. */
  lemma ArgsGrammar(ts: seq<string>, args: seq<(string, string)>, rest: seq<string>)
    ensures ParseArgs(ts) == Ok((args, rest)) <==>
      CompileParse.ValidParams(args) && ts == CompileParse.ParamTokens(args) + [")", "{"] + rest
  {
    ArgsAgree(ts);
    CompileParse.ArgsGrammar(ts, args, rest);
  }

  /** After the pairs, a token other than `)`, or a `)` followed by anything
      but `{`, is the one error "method declaration is invalid"; a list that
      ends after the `)` raises IndexError. */
  lemma ArgsCloseErrors(args: seq<(string, string)>, t: string, rest: seq<string>)
    ensures t != ")" ==> ArgsTail((args, [t] + rest)) == Err(SyntaxError("method declaration is invalid"))
    ensures t != "{" ==> ArgsTail((args, [")", t] + rest)) == Err(SyntaxError("method declaration is invalid"))
    ensures ArgsTail((args, [")"])) == Err(IndexError)
  {
  }

  /** The compiler draft reports the same two cases as "expected )" and "expected {". */
  lemma CompilerCloseErrors(args: seq<(string, string)>, t: string, rest: seq<string>)
    ensures t != ")" ==> CompileParse.ParseArgsTail((args, [t] + rest)) == Err(SyntaxError("expected )"))
    ensures t != "{" ==> CompileParse.ParseArgsTail((args, [")", t] + rest)) == Err(SyntaxError("expected {"))
  {
  }

  /** `parse_body` returns the balanced tokens before the `}` that closes the
      opened brace, joined with spaces, and nothing else. */
  lemma BodyGrammar(body: seq<string>, rest: seq<string>)
    ensures Balanced(body) ==> ParseBody(body + ["}"] + rest) == Ok((Join(body, " "), rest))
  {
    if CompileParse.Balanced(body) {
      CompileParse.BodyRoundTrip(body, rest);
    }
  }

  predicate Balanced(body: seq<string>) {
    CompileParse.Balanced(body)
  }

  lemma BodyExact(ts: seq<string>)
    requires ParseBody(ts).Ok?
    ensures var s, rest := ParseBody(ts).value.0, ParseBody(ts).value.1;
      var body := ts[..|ts| - |rest| - 1];
      Balanced(body) && ts == body + ["}"] + rest && s == Join(body, " ")
  {
    CompileParse.BodyExact(ts);
  }

  /** Modifiers are matched exactly: a first token that is not one of the
      three lower-case modifiers or `static` is the type or the name. */
  lemma PlainHeader(ts: seq<string>)
    requires |ts| >= 2 && ts[0] !in MODIFIERS && ts[0] != "static"
    ensures ParseHeader(ts) == Ok(CompileParse.Header(false, false, ts[0], ts[1..]))
  {
  }

  /** Only `private` makes a statement private; `static` after the optional
      modifier makes it static. */
  lemma HeaderFlags(ts: seq<string>)
    requires ParseHeader(ts).Ok?
    ensures ParseHeader(ts).value.isPrivate <==> ts[0] == "private"
    ensures ParseHeader(ts).value.isStatic <==>
      (if ts[0] in MODIFIERS then ts[1] == "static" else ts[0] == "static")
  {
  }

  /** A modifier written in another letter case, such as `Private int x;`:
      the compiler draft lower-cases it, drops it and reads the declaration of
      type `int`; the frontend reads the modifier itself as the type. */
  lemma CaseOfModifiers(ts: seq<string>)
    requires |ts| >= 3 && CompileParse.IsModifier(ts[0]) && ts[0] !in MODIFIERS
    requires ts[0] != "static" && ts[1] != "static"
    ensures ParseHeader(ts) == Ok(CompileParse.Header(false, false, ts[0], ts[1..]))
    ensures CompileParse.ParseHeader(ts) == Ok(CompileParse.Header(false, false, ts[1], ts[2..]))
  {
    PlainHeader(ts);
    CompileParse.ModifierHeader(ts);
  }

  /** `Private` is such a modifier. */
  lemma CapitalisedPrivate()
    ensures CompileParse.IsModifier("Private") && "Private" !in MODIFIERS && "Private" != "static"
  {
    assert Lower("Private") == "private";
  }

  /** After a valid name, `;` ends a declaration, `=` pushes the name back for
      the assignment, `(` starts a method, and any other token ends the
      declaration and stays in the list. */
  lemma DeclareDispatch(p: bool, st: bool, dtype: string, name: string, t: string, ts: seq<string>)
    requires CompileParse.ValidateName(name).Pass?
    ensures ParseDeclare(p, st, dtype, [name, ";"] + ts) == Ok((DeclareDict(name, dtype, p, st), ts))
    ensures ParseDeclare(p, st, dtype, [name, "="] + ts) == Ok((DeclareDict(name, dtype, p, st), [name, "="] + ts))
    ensures ParseDeclare(p, st, dtype, [name, "("] + ts) == ParseMethod(p, st, dtype, name, ts)
    ensures t != ";" && t != "=" && t != "(" ==>
      ParseDeclare(p, st, dtype, [name, t] + ts) == Ok((DeclareDict(name, dtype, p, st), [t] + ts))
  {
    assert name != "(" by { assert !CompileParse.IsLetter("("[0]); }
    assert ([name, ";"] + ts)[1..][1..] == ts;
    assert ([name, "("] + ts)[1..][1..] == ts;
    assert [name] + ([name, "="] + ts)[1..] == [name, "="] + ts;
    assert ([name, t] + ts)[1..] == [t] + ts;
  }

  /** The assignment value is every token through the first `;`, whatever the
      name and even when nothing precedes the `;`. */
  lemma AssignGrammar(name: string, vs: seq<string>, rest: seq<string>)
    requires ";" !in vs
    ensures ParseAssign(name, vs + [";"] + rest) == Ok((AssignDict(name, Join(vs + [";"], " ")), rest))
  {
    CompileParse.AssignValueExact(vs, rest, []);
    assert [] + vs == vs;
    assert ([";"] + rest)[1..] == rest;
  }

  /** Without a `;` the scan runs off the end of the list. */
  lemma AssignUnterminated(name: string, ts: seq<string>)
    requires ";" !in ts
    ensures ParseAssign(name, ts) == Err(IndexError)
  {
    CompileParse.AssignValueUnterminated(ts, []);
  }

  /** `x = 4;` stores the value `"4 ;"`: the tokens are joined with spaces. */
  lemma AssignValueText()
    ensures ParseAssign("x", ["4", ";"]) == Ok((AssignDict("x", "4 ;"), []))
  {
    AssignGrammar("x", ["4"], []);
    assert ["4"] + [";"] + [] == ["4", ";"];
    assert Join(["4", ";"], " ") == "4 ;" by {
      assert Join([";"], " ") == ";";
      assert ["4", ";"][1..] == [";"];
      assert "4" + " " + ";" == "4 ;";
    }
  }

  /** `read_method` reads the parameters and the body and takes any name; the
      compiler draft rejects a name that is not an identifier. */
  lemma MethodAnyName(p: bool, st: bool, dtype: string, name: string, ts: seq<string>)
    requires ParseArgs(ts).Ok? && ParseBody(ParseArgs(ts).value.1).Ok?
    ensures var args := ParseArgs(ts).value; var body := ParseBody(args.1).value;
      ParseMethod(p, st, dtype, name, ts) == Ok((MethodDict(name, dtype, args.0, body.0, p, st), body.1))
    ensures !CompileParse.ValidName(name) ==>
      CompileParse.ParseMethod(p, st, dtype, name, ts) == Err(InvalidIdentifier(name))
  {
  }

  /** A class header needs `{` after the name and superclass, and a `}` before
      the tokens run out. */
  lemma ClassBraces(p: bool, name: string, t: string, rest: seq<string>)
    requires CompileParse.ValidateName(name).Pass?
    ensures t != "{" && t != "extends" ==> ParseClass(p, [name, t] + rest) == Err(SyntaxError("expected {"))
    ensures ParseClass(p, [name, "{"]) == Err(SyntaxError("expected }"))
    ensures ParseClass(p, [name]) == Err(IndexError)
  {
    assert ([name, t] + rest)[1..] == [t] + rest;
    assert [name, "{"][1..] == ["{"] && ["{"][1..] == [];
  }

  /** `class Ex {}` is a class named `Ex` with no members and no superclass. */
  lemma EmptyClass()
    ensures ParseClass(false, ["Ex", "{", "}"]) == Ok((ClassDict("Ex", [], None, false), []))
  {
    CompileParse.NamePasses("Ex");
    assert ["Ex", "{", "}"][1..] == ["{", "}"] && ["{", "}"][1..] == ["}"] && ["}"][1..] == [];
  }

  /** `() {` with nothing before `)` reads no parameters. */
  lemma NoParams(rest: seq<string>)
    ensures ParseArgs([")", "{"] + rest) == Ok(([], rest))
  {
    ArgsGrammar([")", "{"] + rest, [], rest);
    assert [")", "{"] + rest == CompileParse.ParamTokens([]) + [")", "{"] + rest;
  }

  /** A `}` straight after the `{` closes the empty body. */
  lemma EmptyBody(rest: seq<string>)
    ensures ParseBody(["}"] + rest) == Ok(("", rest))
  {
    BodyGrammar([], rest);
    assert Balanced([]) by { assert CompileParse.Depth([]) == 0; }
    assert [] + ["}"] + rest == ["}"] + rest;
  }

  /** A method is its parameters followed by its body. */
  lemma MethodParts(p: bool, st: bool, dtype: string, name: string, ts: seq<string>,
                    args: seq<(string, string)>, ts1: seq<string>, body: string, rest: seq<string>)
    requires ParseArgs(ts) == Ok((args, ts1)) && ParseBody(ts1) == Ok((body, rest))
    ensures ParseMethod(p, st, dtype, name, ts) == Ok((MethodDict(name, dtype, args, body, p, st), rest))
  {
  }

  /** A valid name followed by `(` opens a method. */
  lemma DeclareOpensMethod(p: bool, st: bool, dtype: string, name: string, ts: seq<string>)
    requires CompileParse.ValidName(name)
    ensures ParseDeclare(p, st, dtype, [name, "("] + ts) == ParseMethod(p, st, dtype, name, ts)
  {
    assert name != "(" by { assert !CompileParse.IsLetter("("[0]); }
    assert ([name, "("] + ts)[1..][1..] == ts;
  }

  /** `int foo() {}`: after `foo (`, the tokens `) {}` complete a method with no
      parameters and the empty body (and `DeclareOpensMethod` takes the
      declaration to this method). */
  lemma EmptyMethod(p: bool, st: bool, dtype: string, name: string, rest: seq<string>)
    ensures ParseMethod(p, st, dtype, name, [")", "{", "}"] + rest) ==
      Ok((MethodDict(name, dtype, [], "", p, st), rest))
  {
    var ts := [")", "{", "}"] + rest;
    NoParams(["}"] + rest);
    EmptyBody(rest);
    assert ts == [")", "{"] + (["}"] + rest);
    MethodParts(p, st, dtype, name, ts, [], ["}"] + rest, "", rest);
  }

  // ---------------------------------------------------------------------------
  // The token list and the readers over it.

  /** The Python list of tokens the readers share and consume. */
  class TokenList {
    var items: seq<string>

    constructor (ts: seq<string>)
      ensures items == ts
    {
      items := ts;
    }

    /** `tokens.pop(0)`. */
    method PopFront() returns (r: Result<string>)
      modifies this
      ensures old(items) == [] ==> r == Err(IndexError) && items == []
      ensures old(items) != [] ==> r == Ok(old(items)[0]) && items == old(items)[1..]
    {
      if items == [] {
        r := Err(IndexError);
      } else {
        r := Ok(items[0]);
        items := items[1..];
      }
    }

    /** `tokens[i]`. */
    method At(i: nat) returns (r: Result<string>)
      ensures i < |items| ==> r == Ok(items[i])
      ensures i >= |items| ==> r == Err(IndexError)
    {
      if i < |items| {
        r := Ok(items[i]);
      } else {
        r := Err(IndexError);
      }
    }

    /** `tokens.insert(0, t)`. */
    method InsertFront(t: string)
      modifies this
      ensures items == [t] + old(items)
    {
      items := [t] + items;
    }
  }

  /** `list.pop(0)` followed by `list.insert(0, t)` of the popped token gives
      the list back. */
  lemma PopInsert(ts: seq<string>)
    requires ts != []
    ensures [ts[0]] + ts[1..] == ts
  {
  }

  method ReadStatement(tokens: TokenList) returns (r: Result<Dict>)
    modifies tokens
    ensures CompileParse.Matches(r, tokens.items, ParseStatement(old(tokens.items)))
    decreases |tokens.items|, 1
  {
    var val :- tokens.PopFront();
    var isPrivate := false;
    if val in MODIFIERS {
      isPrivate := val == "private";
      val :- tokens.PopFront();
    }
    var isStatic := false;
    if val == "static" {
      isStatic := true;
      val :- tokens.PopFront();
    }
    if val == "class" {
      r := ReadClass(isPrivate, tokens);
    } else {
      var next :- tokens.At(0);
      if next == "=" {
        var _ := tokens.PopFront();
        r := ReadAssign(val, tokens);
      } else {
        r := ReadDeclare(isPrivate, isStatic, val, tokens);
      }
    }
  }

  method ReadClass(isPrivate: bool, tokens: TokenList) returns (r: Result<Dict>)
    modifies tokens
    ensures CompileParse.Matches(r, tokens.items, ParseClass(isPrivate, old(tokens.items)))
    decreases |tokens.items|, 0
  {
    ghost var ts := tokens.items;
    var name :- tokens.PopFront();
    :- CompileParse.ValidateName(name);
    var superclass: Option<string> := None;
    var next :- tokens.At(0);
    if next == "extends" {
      var _ := tokens.PopFront();
      var sup :- tokens.PopFront();
      :- CompileParse.ValidateName(sup);
      superclass := Some(sup);
    }
    assert ParseSuper(ts[1..]) == Ok((superclass, tokens.items));
    next :- tokens.At(0);
    if next != "{" {
      return Err(SyntaxError("expected {"));
    }
    var _ := tokens.PopFront();
    var members :- ReadMembers(tokens);
    r := Ok(ClassDict(name, members, superclass, isPrivate));
  }

  /** The member loop of `read_class`. */
  method ReadMembers(tokens: TokenList) returns (r: Result<seq<Dict>>)
    modifies tokens
    ensures CompileParse.Matches(r, tokens.items, ParseMembers(old(tokens.items), []))
    decreases |tokens.items|, 2
  {
    ghost var start := tokens.items;
    var exp: seq<Dict> := [];
    while tokens.items != [] && tokens.items[0] != "}"
      invariant |tokens.items| <= |start|
      invariant ParseMembers(tokens.items, exp) == ParseMembers(start, [])
      decreases |tokens.items|
    {
      var s :- ReadStatement(tokens);
      exp := exp + [s];
    }
    if tokens.items == [] {
      return Err(SyntaxError("expected }"));
    }
    var _ := tokens.PopFront();
    r := Ok(exp);
  }

  method ReadDeclare(isPrivate: bool, isStatic: bool, dtype: string, tokens: TokenList) returns (r: Result<Dict>)
    modifies tokens
    ensures CompileParse.Matches(r, tokens.items, ParseDeclare(isPrivate, isStatic, dtype, old(tokens.items)))
  {
    var name :- tokens.PopFront();
    if name == "(" {
      if isStatic {
        return Err(SyntaxError("Constructor can't be static"));
      }
      r := ReadConstructor(isPrivate, dtype, tokens);
      return;
    }
    :- CompileParse.ValidateName(name);
    var next :- tokens.At(0);
    if next == ";" {
      var _ := tokens.PopFront();
    } else if next == "=" {
      tokens.InsertFront(name);
    } else if next == "(" {
      var _ := tokens.PopFront();
      r := ReadMethod(isPrivate, isStatic, dtype, name, tokens);
      return;
    }
    r := Ok(DeclareDict(name, dtype, isPrivate, isStatic));
  }

  method ReadAssign(name: string, tokens: TokenList) returns (r: Result<Dict>)
    modifies tokens
    ensures CompileParse.Matches(r, tokens.items, ParseAssign(name, old(tokens.items)))
  {
    ghost var ts := tokens.items;
    var value: seq<string> := [];
    var next :- tokens.At(0);
    while next != ";"
      invariant CompileParse.AssignValue(tokens.items, value) == CompileParse.AssignValue(ts, [])
      invariant tokens.items != [] && next == tokens.items[0]
      decreases |tokens.items|
    {
      var t := tokens.PopFront();
      value := value + [t.value];
      next :- tokens.At(0);
    }
    var semi := tokens.PopFront();
    value := value + [semi.value];
    r := Ok(AssignDict(name, Join(value, " ")));
  }

  method ReadMethod(isPrivate: bool, isStatic: bool, dtype: string, name: string, tokens: TokenList)
    returns (r: Result<Dict>)
    modifies tokens
    ensures CompileParse.Matches(r, tokens.items, ParseMethod(isPrivate, isStatic, dtype, name, old(tokens.items)))
  {
    var args :- ReadArgs(tokens);
    var body :- ReadBody(tokens);
    r := Ok(MethodDict(name, dtype, args, body, isPrivate, isStatic));
  }

  method ReadConstructor(isPrivate: bool, dtype: string, tokens: TokenList) returns (r: Result<Dict>)
    modifies tokens
    ensures CompileParse.Matches(r, tokens.items, ParseConstructor(isPrivate, dtype, old(tokens.items)))
  {
    var args :- ReadArgs(tokens);
    var body :- ReadBody(tokens);
    r := Ok(ConstructorDict(dtype, args, body, isPrivate));
  }

  /** `parse_args`. */
  method ReadArgs(tokens: TokenList) returns (r: Result<seq<(string, string)>>)
    modifies tokens
    ensures CompileParse.Matches(r, tokens.items, ParseArgs(old(tokens.items)))
  {
    ghost var ts := tokens.items;
    var args: seq<(string, string)> := [];
    var next :- tokens.At(0);
    if next != ")" {
      args :- ReadParam(tokens, args);
    }
    ghost var mid, midArgs := tokens.items, args;
    assert ParseArgs(ts) == (var more :- Relabel(CompileParse.ParseMoreParams(mid, midArgs)); ArgsTail(more));
    next :- tokens.At(0);
    while next == ","
      invariant CompileParse.ParseMoreParams(tokens.items, args) == CompileParse.ParseMoreParams(mid, midArgs)
      invariant tokens.items != [] && next == tokens.items[0]
      decreases |tokens.items|
    {
      var _ := tokens.PopFront();
      args :- ReadParam(tokens, args);
      next :- tokens.At(0);
    }
    if next != ")" {
      return Err(SyntaxError("method declaration is invalid"));
    }
    var open :- tokens.At(1);
    if open != "{" {
      return Err(SyntaxError("method declaration is invalid"));
    }
    var _ := tokens.PopFront();
    var _ := tokens.PopFront();
    r := Ok(args);
  }

  /** `validate_name(tokens[0])`, `validate_name(tokens[1])`, then both popped. */
  method ReadParam(tokens: TokenList, acc: seq<(string, string)>) returns (r: Result<seq<(string, string)>>)
    modifies tokens
    ensures CompileParse.Matches(r, tokens.items, Relabel(CompileParse.ParseParam(old(tokens.items), acc)))
  {
    var first :- tokens.At(0);
    :- CompileParse.ValidateName(first);
    var second :- tokens.At(1);
    :- CompileParse.ValidateName(second);
    var dtype := tokens.PopFront();
    var name := tokens.PopFront();
    r := Ok(acc + [(dtype.value, name.value)]);
  }

  /** `parse_body`. */
  method ReadBody(tokens: TokenList) returns (r: Result<string>)
    modifies tokens
    ensures CompileParse.Matches(r, tokens.items, ParseBody(old(tokens.items)))
  {
    ghost var ts := tokens.items;
    var body: seq<string> := [];
    var braces: nat := 1;
    while braces != 0
      invariant braces == 0 ==> CompileParse.BodyScan(ts, 1, []) == Ok((body, tokens.items)) && body != []
      invariant braces != 0 ==> CompileParse.BodyScan(tokens.items, braces, body) == CompileParse.BodyScan(ts, 1, [])
      decreases |tokens.items|, braces
    {
      var val :- tokens.PopFront();
      if val == "{" {
        braces := braces + 1;
      } else if val == "}" {
        braces := braces - 1;
      }
      body := body + [val];
    }
    r := Ok(Join(body[..|body| - 1], " "));
  }

  /** `read_line`. */
  method ReadLine(line: string) returns (r: Result<seq<Dict>>)
    ensures r == ParseLine(Lexer.Tokens(line, Lexer.CharSet(Lexer.DELIMS)), [])
  {
    Lexer.DelimsValid();
    var ts := Lexer.Tokenize(line, Lexer.DELIMS);
    var tokens := new TokenList(ts);
    var statements: seq<Dict> := [];
    while tokens.items != []
      invariant ParseLine(tokens.items, statements) == ParseLine(ts, [])
      decreases |tokens.items|
    {
      var s :- ReadStatement(tokens);
      statements := statements + [s];
    }
    r := Ok(statements);
  }
}
