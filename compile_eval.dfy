/** The class evaluator of the compiler (compiler/compile_eval.py).

    A `ClassObj` is built from a parsed class statement: it records the name,
    the private flag and the superclass, then evaluates the body statements in
    order, filling a table of instance fields keyed by name, a table of methods
    keyed by (name, number of parameters) and a table of constructors keyed by
    number of parameters.  An exception raised by any body statement escapes
    the constructor, so no object is produced. */
module CompileEval {
  import opened Wrappers
  import opened Statements
  import opened Members

  /** The three tables a class fills while its body is evaluated. */
  datatype Tables = Tables(attrs: map<string, Var>, methods: map<(string, nat), Method>, ctors: map<nat, Method>)

  const EMPTY: Tables := Tables(map[], map[], map[])

  // ---------------------------------------------------------------------------
  // The evaluation of one member statement, on the tables as values.

  /** `eval_declare`: a new field, unless the name is already a field. */
  function Declare(t: Tables, name: string, dtype: string, isStatic: bool, isPrivate: bool): Result<Tables> {
    if name in t.attrs then Err(AlreadyDefined(name))
    else Ok(t.(attrs := t.attrs[name := Var(name, dtype, isStatic, isPrivate, None)]))
  }

  /** `eval_assign`: the value of a declared field. */
  function Assign(t: Tables, name: string, value: string): Result<Tables> {
    if name !in t.attrs then Err(NotDefined(name))
    else Ok(t.(attrs := t.attrs[name := t.attrs[name].(value := Some(value))]))
  }

  /** `eval_method`: a new entry under (name, number of parameters), unless
      that key is taken. */
  function AddMethod(t: Tables, name: string, dtype: string, args: seq<(string, string)>, body: string)
    : Result<Tables>
  {
    var key := (name, |args|);
    if key in t.methods then Err(MethodDefined(Some(name), |args|))
    else Ok(t.(methods := t.methods[key := Method(Some(name), Some(dtype), Params(args), body)]))
  }

  /** `eval_constructor`: a constructor named after its class, stored under its
      number of parameters; a later one with as many parameters replaces it. */
  function AddConstructor(t: Tables, clsName: string, name: string, args: seq<(string, string)>, body: string)
    : Result<Tables>
  {
    if clsName != name then Err(ConstructorMismatch)
    else Ok(t.(ctors := t.ctors[|args| := Method(None, None, Params(args), body)]))
  }

  /** One body statement, dispatched on its type; a nested class is skipped. */
  function EvalMember(t: Tables, clsName: string, s: Statement): Result<Tables>
    requires MemberShaped(s.kind, s.kargs)
  {
    var m := s.kargs;
    match s.kind
    case Declaration => Declare(t, m["name"].s, m["type"].s, m["static"].b, m["private"].b)
    case Assignment => Assign(t, m["name"].s, m["value"].s)
    case MethodDef => AddMethod(t, m["name"].s, m["type"].s, m["args"].pairs, m["body"].s)
    case ConstructorDef => AddConstructor(t, clsName, m["name"].s, m["args"].pairs, m["body"].s)
    case ClassDef => Ok(t)
  }

  predicate AllShaped(body: seq<Statement>) {
    forall i :: 0 <= i < |body| ==> MemberShaped(body[i].kind, body[i].kargs)
  }

  /** `eval_class`: the body statements in order, stopping at the first error. */
  function EvalBody(t: Tables, clsName: string, body: seq<Statement>): Result<Tables>
    requires AllShaped(body)
    decreases |body|
  {
    if body == [] then Ok(t)
    else
      var t1 :- EvalMember(t, clsName, body[0]);
      EvalBody(t1, clsName, body[1..])
  }

  /** `cls['super'] if cls['super'] else 'Object'`. */
  function SuperOf(v: Value): string {
    if v.Str? && v.s != "" then v.s else "Object"
  }

  // ---------------------------------------------------------------------------
  // Properties of the evaluation.

  /** A field name is declared at most once, and a declaration adds exactly
      that field, unset, leaving the methods and constructors alone. */
  lemma DeclareFacts(t: Tables, name: string, dtype: string, isStatic: bool, isPrivate: bool)
    ensures Declare(t, name, dtype, isStatic, isPrivate).Err? <==> name in t.attrs
    ensures name in t.attrs ==> Declare(t, name, dtype, isStatic, isPrivate) == Err(AlreadyDefined(name))
    ensures name !in t.attrs ==>
      var t1 := Declare(t, name, dtype, isStatic, isPrivate).value;
      t1.attrs.Keys == t.attrs.Keys + {name} && t1.attrs[name].value == None
      && t1.attrs[name].dtype == dtype && t1.attrs[name].isStatic == isStatic && t1.attrs[name].isPrivate == isPrivate
      && (forall k :: k in t.attrs ==> t1.attrs[k] == t.attrs[k])
      && t1.methods == t.methods && t1.ctors == t.ctors
  {
  }

  /** Only a declared field can be assigned; the assignment changes that
      field's value and nothing else. */
  lemma AssignFacts(t: Tables, name: string, value: string)
    ensures Assign(t, name, value).Err? <==> name !in t.attrs
    ensures name !in t.attrs ==> Assign(t, name, value) == Err(NotDefined(name))
    ensures name in t.attrs ==>
      var t1 := Assign(t, name, value).value;
      t1.attrs.Keys == t.attrs.Keys && t1.attrs[name].value == Some(value)
      && t1.attrs[name].(value := t.attrs[name].value) == t.attrs[name]
      && (forall k :: k in t.attrs && k != name ==> t1.attrs[k] == t.attrs[k])
      && t1.methods == t.methods && t1.ctors == t.ctors
  {
  }

  /** Methods overload by their number of parameters: the same name with
      another count is accepted next to the first, the same count is not. */
  lemma Overloading(t: Tables, name: string, d1: string, a1: seq<(string, string)>, b1: string,
                    d2: string, a2: seq<(string, string)>, b2: string)
    requires (name, |a1|) !in t.methods
    ensures AddMethod(t, name, d1, a1, b1).Ok?
    ensures var t1 := AddMethod(t, name, d1, a1, b1).value;
      && (|a1| == |a2| ==> AddMethod(t1, name, d2, a2, b2) == Err(MethodDefined(Some(name), |a1|)))
      && (|a1| != |a2| && (name, |a2|) !in t.methods ==>
            AddMethod(t1, name, d2, a2, b2).Ok?
            && AddMethod(t1, name, d2, a2, b2).value.methods[(name, |a1|)].dtype == Some(d1)
            && AddMethod(t1, name, d2, a2, b2).value.methods[(name, |a2|)].dtype == Some(d2))
  {
  }

  /** A constructor must carry the class's name; of two with the same number
      of parameters the later one is kept; the stored record is a constructor. */
  lemma ConstructorFacts(t: Tables, cls: string, name: string, a1: seq<(string, string)>, b1: string,
                         a2: seq<(string, string)>, b2: string)
    ensures AddConstructor(t, cls, name, a1, b1).Err? <==> cls != name
    ensures cls != name ==> AddConstructor(t, cls, name, a1, b1) == Err(ConstructorMismatch)
    ensures cls == name ==>
      var t1 := AddConstructor(t, cls, name, a1, b1).value;
      IsConstructor(t1.ctors[|a1|]) && t1.ctors[|a1|].params == Params(a1)
      && (|a2| == |a1| ==> AddConstructor(t1, cls, name, a2, b2).value.ctors[|a1|].body == b2)
  {
  }

  /** The body is evaluated statement by statement: evaluating `a + b` is
      evaluating `a`, then `b` on the tables `a` left. */
  lemma {:induction false} EvalBodyAppend(t: Tables, cls: string, a: seq<Statement>, b: seq<Statement>)
    requires AllShaped(a) && AllShaped(b)
    ensures AllShaped(a + b)
    ensures EvalBody(t, cls, a + b) ==
      (match EvalBody(t, cls, a) case Ok(t1) => EvalBody(t1, cls, b) case Err(e) => Err(e))
    decreases |a|
  {
    assert AllShaped(a + b) by {
      forall i | 0 <= i < |a + b| ensures MemberShaped((a + b)[i].kind, (a + b)[i].kargs) {
        if i >= |a| { assert (a + b)[i] == b[i - |a|]; }
      }
    }
    if a != [] {
      assert (a + b)[0] == a[0] && (a + b)[1..] == a[1..] + b;
      assert AllShaped(a[1..]) by {
        forall i | 0 <= i < |a| - 1 ensures MemberShaped(a[1..][i].kind, a[1..][i].kargs) {
          assert a[1..][i] == a[i + 1];
        }
      }
      match EvalMember(t, cls, a[0])
      case Ok(t1) => EvalBodyAppend(t1, cls, a[1..], b);
      case Err(e) =>
    } else {
      assert a + b == b;
    }
  }

  /** A class statement inside a class body is ignored. */
  lemma NestedClassIgnored(t: Tables, cls: string, inner: Statement, rest: seq<Statement>)
    requires inner.kind == ClassDef && AllShaped(rest)
    ensures AllShaped([inner] + rest)
    ensures EvalBody(t, cls, [inner] + rest) == EvalBody(t, cls, rest)
  {
    assert ([inner] + rest)[1..] == rest;
    assert AllShaped([inner] + rest) by {
      forall i | 0 <= i < |[inner] + rest| ensures MemberShaped(([inner] + rest)[i].kind, ([inner] + rest)[i].kargs) {
        if i > 0 { assert ([inner] + rest)[i] == rest[i - 1]; }
      }
    }
  }

  /** `int x = 3; int x;` in one class: the second declaration of `x` fails,
      even after `x` was assigned. */
  lemma RedeclaredField(cls: string, x: string, d1: string, d2: string, v: string, p: bool, st: bool)
    ensures AllShaped([DeclareStmt(x, d1, p, st), AssignStmt(x, v), DeclareStmt(x, d2, p, st)])
    ensures EvalBody(EMPTY, cls, [DeclareStmt(x, d1, p, st), AssignStmt(x, v), DeclareStmt(x, d2, p, st)])
      == Err(AlreadyDefined(x))
  {
    var s1, s2, s3 := DeclareStmt(x, d1, p, st), AssignStmt(x, v), DeclareStmt(x, d2, p, st);
    BuiltShapes(x, d1, [], v, p, st);
    BuiltShapes(x, d2, [], v, p, st);
    var body := [s1, s2, s3];
    assert AllShaped(body);
    var t1 := Declare(EMPTY, x, d1, st, p).value;
    assert EvalMember(EMPTY, cls, s1) == Ok(t1);
    var t2 := Assign(t1, x, v).value;
    assert EvalMember(t1, cls, s2) == Ok(t2);
    assert EvalMember(t2, cls, s3) == Err(AlreadyDefined(x));
    assert EvalBody(t2, cls, [s3]) == Err(AlreadyDefined(x));
    assert [s2, s3][1..] == [s3];
    assert EvalBody(t1, cls, [s2, s3]) == Err(AlreadyDefined(x));
    assert body[1..] == [s2, s3];
  }

  // ---------------------------------------------------------------------------
  // The class object.

  /** Whether an evaluator call left the object as `r` says: on success the new
      tables, on an error the tables unchanged and that error raised. */
  predicate Applied(r: Result<Tables>, o: Outcome, before: Tables, after: Tables) {
    if r.Ok? then o == Pass && after == r.value else o == Fail(r.error) && after == before
  }

  class ClassObj {
    const name: string
    const isPrivate: bool
    const superclass: string
    var attrs: map<string, Var>
    var methods: map<(string, nat), Method>
    var ctors: map<nat, Method>

    function State(): Tables
      reads this
    {
      Tables(attrs, methods, ctors)
    }

    /** The object `__init__` sets up before it evaluates the body. */
    constructor (name: string, isPrivate: bool, superclass: string)
      ensures this.name == name && this.isPrivate == isPrivate && this.superclass == superclass
      ensures State() == EMPTY
    {
      this.name := name;
      this.isPrivate := isPrivate;
      this.superclass := superclass;
      attrs, methods, ctors := map[], map[], map[];
    }

    method EvalDeclare(expr: Statement) returns (o: Outcome)
      requires expr.kind == Declaration && MemberShaped(expr.kind, expr.kargs)
      modifies this
      ensures Applied(EvalMember(old(State()), name, expr), o, old(State()), State())
    {
      var n := expr.kargs["name"].s;
      if n in attrs {
        return Fail(AlreadyDefined(n));
      }
      attrs := attrs[n := Var(n, expr.kargs["type"].s, expr.kargs["static"].b, expr.kargs["private"].b, None)];
      o := Pass;
    }

    method EvalAssign(expr: Statement) returns (o: Outcome)
      requires expr.kind == Assignment && MemberShaped(expr.kind, expr.kargs)
      modifies this
      ensures Applied(EvalMember(old(State()), name, expr), o, old(State()), State())
    {
      var n := expr.kargs["name"].s;
      if n !in attrs {
        return Fail(NotDefined(n));
      }
      attrs := attrs[n := attrs[n].(value := Some(expr.kargs["value"].s))];
      o := Pass;
    }

    method EvalMethod(expr: Statement) returns (o: Outcome)
      requires expr.kind == MethodDef && MemberShaped(expr.kind, expr.kargs)
      modifies this
      ensures Applied(EvalMember(old(State()), name, expr), o, old(State()), State())
    {
      var n, args := expr.kargs["name"].s, expr.kargs["args"].pairs;
      if (n, |args|) in methods {
        return Fail(MethodDefined(Some(n), |args|));
      }
      var m := NewMethod(Some(n), Some(expr.kargs["type"].s), args, expr.kargs["body"].s);
      methods := methods[(n, |args|) := m];
      o := Pass;
    }

    method EvalConstructor(expr: Statement) returns (o: Outcome)
      requires expr.kind == ConstructorDef && MemberShaped(expr.kind, expr.kargs)
      modifies this
      ensures Applied(EvalMember(old(State()), name, expr), o, old(State()), State())
    {
      var args := expr.kargs["args"].pairs;
      if name != expr.kargs["name"].s {
        return Fail(ConstructorMismatch);
      }
      var m := NewMethod(None, None, args, expr.kargs["body"].s);
      ctors := ctors[|args| := m];
      o := Pass;
    }

    /** `eval_class`: the body statements in order; the first error stops it. */
    method EvalClass(body: seq<Statement>) returns (o: Outcome)
      requires AllShaped(body)
      modifies this
      ensures var r := EvalBody(old(State()), name, body);
        (r.Ok? ==> o == Pass && State() == r.value) && (r.Err? ==> o == Fail(r.error))
    {
      var i := 0;
      while i < |body|
        invariant 0 <= i <= |body|
        invariant EvalBody(old(State()), name, body) == EvalBody(State(), name, body[i..])
      {
        assert body[i..][1..] == body[i + 1..];
        var expr := body[i];
        match expr.kind {
          case Declaration => o := EvalDeclare(expr);
          case Assignment => o := EvalAssign(expr);
          case MethodDef => o := EvalMethod(expr);
          case ConstructorDef => o := EvalConstructor(expr);
          case ClassDef => o := Pass;
        }
        if o.Fail? {
          return;
        }
        i := i + 1;
      }
      o := Pass;
    }
  }

  /** `ClassObj(cls)`: a class statement becomes a class object whose
      superclass defaults to Object, with its body evaluated; anything else
      fails the assertion, and an error in the body escapes. */
  method NewClassObj(cls: Statement) returns (r: Result<ClassObj>)
    requires ClassShaped(cls)
    ensures cls.kind != ClassDef ==> r == Err(AssertionError("not a class"))
    ensures cls.kind == ClassDef ==>
      var body := cls.kargs["body"].stmts;
      AllShaped(body)
      && var e := EvalBody(EMPTY, cls.kargs["name"].s, body);
      && (e.Err? ==> r == Err(e.error))
      && (e.Ok? ==>
            (r.Ok? && fresh(r.value) && r.value.name == cls.kargs["name"].s
             && r.value.isPrivate == cls.kargs["private"].b && r.value.superclass == SuperOf(cls.kargs["super"])
             && r.value.State() == e.value))
  {
    if cls.kind != ClassDef {
      return Err(AssertionError("not a class"));
    }
    var body := cls.kargs["body"].stmts;
    var c := new ClassObj(cls.kargs["name"].s, cls.kargs["private"].b, SuperOf(cls.kargs["super"]));
    var o := c.EvalClass(body);
    if o.Fail? {
      return Err(o.error);
    }
    r := Ok(c);
  }
}
