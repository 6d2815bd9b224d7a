/** The class evaluators of the two later drafts (main/compile_eval.py and
    frontend/www/compile_eval.py), which read the frontend parser's
    dictionaries.

    The two drafts are the same code except for the value a declared field
    starts with: '' in the main draft, None in the www draft.  Neither checks
    for a duplicate field or method: a later declaration replaces an earlier
    one.  A class is entered in the module-level CLASSES dictionary before its
    body is evaluated, so a class whose body raises stays registered with the
    members read up to the error. */
module InternalClasses {
  import opened Wrappers
  import opened Statements
  import opened PyText

  datatype Draft = MainDraft | WwwDraft

  /** The value a newly declared field holds. */
  function Blank(d: Draft): Option<string> {
    match d
    case MainDraft => Some("")
    case WwwDraft => None
  }

  /** `[typ, value]`. */
  datatype Attr = Attr(dtype: string, value: Option<string>)

  /** `[typ, args, body]`. */
  datatype MethodEntry = MethodEntry(dtype: string, args: seq<(string, string)>, body: string)

  /** `[args, body]`. */
  datatype CtorEntry = CtorEntry(args: seq<(string, string)>, body: string)

  /** The four tables of an `InternalClass`. */
  datatype Tables = Tables(instance: map<string, Attr>, statics: map<string, Attr>,
                           methods: map<(string, nat), MethodEntry>, ctors: map<nat, CtorEntry>)

  const EMPTY: Tables := Tables(map[], map[], map[], map[])

  // ---------------------------------------------------------------------------
  // The operations, on the tables as values.

  /** `add_attribute`. */
  function AttributeAdded(t: Tables, d: Draft, typ: string, name: string, isStatic: bool): Tables {
    if isStatic then t.(statics := t.statics[name := Attr(typ, Blank(d))])
    else t.(instance := t.instance[name := Attr(typ, Blank(d))])
  }

  /** `update_attribute`: indexing the instance table raises KeyError for a
      name in neither table. */
  function AttributeUpdated(t: Tables, name: string, val: Option<string>): Result<Tables> {
    if name in t.statics then Ok(t.(statics := t.statics[name := t.statics[name].(value := val)]))
    else if name in t.instance then Ok(t.(instance := t.instance[name := t.instance[name].(value := val)]))
    else Err(KeyError)
  }

  /** `add_method`. */
  function MethodAdded(t: Tables, typ: string, name: string, body: string, args: seq<(string, string)>): Tables {
    t.(methods := t.methods[(name, |args|) := MethodEntry(typ, args, body)])
  }

  /** `add_constructor`. */
  function ConstructorAdded(t: Tables, numArgs: nat, args: seq<(string, string)>, body: string): Tables {
    t.(ctors := t.ctors[numArgs := CtorEntry(args, body)])
  }

  /** One body dictionary, dispatched on its 'op'; any other op is skipped. */
  function EvalMember(t: Tables, d: Draft, clsName: string, e: Dict): Result<Tables>
    requires DictShaped(e)
  {
    match DictKind(e)
    case Some(Declaration) => Ok(AttributeAdded(t, d, e["type"].s, e["name"].s, e["static"].b))
    case Some(Assignment) => AttributeUpdated(t, e["name"].s, Some(e["value"].s))
    case Some(MethodDef) => Ok(MethodAdded(t, e["type"].s, e["name"].s, e["body"].s, e["args"].pairs))
    case Some(ConstructorDef) =>
      if clsName != e["name"].s then Err(ConstructorMismatch)
      else Ok(ConstructorAdded(t, |e["args"].pairs|, e["args"].pairs, e["body"].s))
    case _ => Ok(t)
  }

  predicate AllShaped(body: seq<Dict>) {
    forall i :: 0 <= i < |body| ==> DictShaped(body[i])
  }

  /** The body of `eval_class`: the dictionaries in order.  An error stops the
      evaluation and leaves the tables as the statements before it made them. */
  function EvalBody(t: Tables, d: Draft, clsName: string, body: seq<Dict>): (Tables, Outcome)
    requires AllShaped(body)
    decreases |body|
  {
    if body == [] then (t, Pass)
    else
      match EvalMember(t, d, clsName, body[0])
      case Ok(t1) => EvalBody(t1, d, clsName, body[1..])
      case Err(e) => (t, Fail(e))
  }

  /** A frontend class dictionary whose name and body the evaluator can read. */
  predicate ClassDictShaped(cls: Dict) {
    "name" in cls && cls["name"].Str? && "body" in cls && cls["body"].Dicts? && AllShaped(cls["body"].dicts)
  }

  // ---------------------------------------------------------------------------
  // Properties of the operations.

  /** A field goes to the static table exactly when it is static, holds the
      draft's blank value, and replaces any field of that name there. */
  lemma AttributePlacement(t: Tables, d: Draft, typ: string, name: string, isStatic: bool)
    ensures var t1 := AttributeAdded(t, d, typ, name, isStatic);
      && t1.methods == t.methods && t1.ctors == t.ctors
      && (isStatic ==> t1.instance == t.instance && name in t1.statics && t1.statics[name] == Attr(typ, Blank(d))
                       && t1.statics.Keys == t.statics.Keys + {name})
      && (!isStatic ==> t1.statics == t.statics && name in t1.instance && t1.instance[name] == Attr(typ, Blank(d))
                        && t1.instance.Keys == t.instance.Keys + {name})
    ensures Blank(MainDraft) == Some("") && Blank(WwwDraft) == None
  {
  }

  /** An update writes the static entry when there is one, otherwise the
      instance entry, and raises KeyError when there is neither; only the
      value of that one entry changes. */
  lemma UpdateTarget(t: Tables, name: string, val: Option<string>)
    ensures AttributeUpdated(t, name, val).Err? <==> name !in t.statics && name !in t.instance
    ensures name in t.statics ==>
      var t1 := AttributeUpdated(t, name, val).value;
      t1.instance == t.instance && t1.statics.Keys == t.statics.Keys
      && t1.statics[name] == Attr(t.statics[name].dtype, val)
      && forall k :: k in t.statics && k != name ==> t1.statics[k] == t.statics[k]
    ensures name !in t.statics && name in t.instance ==>
      var t1 := AttributeUpdated(t, name, val).value;
      t1.statics == t.statics && t1.instance.Keys == t.instance.Keys
      && t1.instance[name] == Attr(t.instance[name].dtype, val)
      && forall k :: k in t.instance && k != name ==> t1.instance[k] == t.instance[k]
  {
  }

  /** Methods are keyed by (name, number of parameters) and a second method
      with the same key silently replaces the first; constructors likewise by
      their number of parameters. */
  lemma LaterMemberWins(t: Tables, typ1: string, typ2: string, name: string, b1: string, b2: string,
                        a1: seq<(string, string)>, a2: seq<(string, string)>)
    requires |a1| == |a2|
    ensures MethodAdded(MethodAdded(t, typ1, name, b1, a1), typ2, name, b2, a2).methods[(name, |a1|)]
      == MethodEntry(typ2, a2, b2)
    ensures ConstructorAdded(ConstructorAdded(t, |a1|, a1, b1), |a2|, a2, b2).ctors[|a1|] == CtorEntry(a2, b2)
  {
  }

  /** The body is evaluated statement by statement: `a + b` is `a`, then `b`
      from the tables `a` left, unless `a` raised. */
  lemma {:induction false} EvalBodyAppend(t: Tables, d: Draft, cls: string, a: seq<Dict>, b: seq<Dict>)
    requires AllShaped(a) && AllShaped(b)
    ensures AllShaped(a + b)
    ensures var (t1, o) := EvalBody(t, d, cls, a);
      EvalBody(t, d, cls, a + b) == if o.Pass? then EvalBody(t1, d, cls, b) else (t1, o)
    decreases |a|
  {
    assert AllShaped(a + b) by {
      forall i | 0 <= i < |a + b| ensures DictShaped((a + b)[i]) {
        if i >= |a| { assert (a + b)[i] == b[i - |a|]; }
      }
    }
    if a != [] {
      assert (a + b)[0] == a[0] && (a + b)[1..] == a[1..] + b;
      assert AllShaped(a[1..]) by {
        forall i | 0 <= i < |a| - 1 ensures DictShaped(a[1..][i]) {
          assert a[1..][i] == a[i + 1];
        }
      }
      match EvalMember(t, d, cls, a[0])
      case Ok(t1) => EvalBodyAppend(t1, d, cls, a[1..], b);
      case Err(e) =>
    } else {
      assert a + b == b;
    }
  }

  /** A constructor named after another class raises TypeError and keeps the
      members evaluated before it. */
  lemma MismatchKeepsEarlier(t: Tables, d: Draft, cls: string, before: seq<Dict>, ctor: Dict, after: seq<Dict>)
    requires AllShaped(before) && AllShaped(after) && DictShaped(ctor)
    requires DictKind(ctor) == Some(ConstructorDef) && ctor["name"].s != cls
    requires EvalBody(t, d, cls, before).1.Pass?
    ensures AllShaped(before + [ctor] + after)
    ensures EvalBody(t, d, cls, before + [ctor] + after) == (EvalBody(t, d, cls, before).0, Fail(ConstructorMismatch))
  {
    var tail := [ctor] + after;
    assert AllShaped(tail) by {
      forall i | 0 <= i < |tail| ensures DictShaped(tail[i]) {
        if i > 0 { assert tail[i] == after[i - 1]; }
      }
    }
    EvalBodyAppend(t, d, cls, before, tail);
    assert before + [ctor] + after == before + tail;
    assert tail[0] == ctor;
  }

  // ---------------------------------------------------------------------------
  // The objects.

  /** The module-level `CLASSES` dictionary. */
  class Registry {
    var classes: map<string, InternalClass>

    constructor ()
      ensures classes == map[]
    {
      classes := map[];
    }

    /** `reset_classes`. */
    method Reset()
      modifies this
      ensures classes == map[]
    {
      classes := map[];
    }
  }

  class InternalClass {
    const draft: Draft
    const name: string
    var instance: map<string, Attr>
    var statics: map<string, Attr>
    var methods: map<(string, nat), MethodEntry>
    var ctors: map<nat, CtorEntry>

    function State(): Tables
      reads this
    {
      Tables(instance, statics, methods, ctors)
    }

    /** The object `__init__` sets up before it evaluates the class. */
    constructor (draft: Draft, name: string)
      ensures this.draft == draft && this.name == name && State() == EMPTY
    {
      this.draft, this.name := draft, name;
      instance, statics, methods, ctors := map[], map[], map[], map[];
    }

    method AddAttribute(typ: string, n: string, isStatic: bool)
      modifies this
      ensures State() == AttributeAdded(old(State()), draft, typ, n, isStatic)
    {
      if isStatic {
        statics := statics[n := Attr(typ, Blank(draft))];
      } else {
        instance := instance[n := Attr(typ, Blank(draft))];
      }
    }

    method UpdateAttribute(n: string, val: Option<string>) returns (o: Outcome)
      modifies this
      ensures var r := AttributeUpdated(old(State()), n, val);
        (r.Ok? ==> o == Pass && State() == r.value) && (r.Err? ==> o == Fail(r.error) && State() == old(State()))
    {
      if n in statics {
        statics := statics[n := statics[n].(value := val)];
      } else if n in instance {
        instance := instance[n := instance[n].(value := val)];
      } else {
        return Fail(KeyError);
      }
      o := Pass;
    }

    method AddMethod(typ: string, n: string, body: string, args: seq<(string, string)>)
      modifies this
      ensures State() == MethodAdded(old(State()), typ, n, body, args)
    {
      methods := methods[(n, |args|) := MethodEntry(typ, args, body)];
    }

    method AddConstructor(numArgs: nat, args: seq<(string, string)>, body: string)
      modifies this
      ensures State() == ConstructorAdded(old(State()), numArgs, args, body)
    {
      ctors := ctors[numArgs := CtorEntry(args, body)];
    }

    /** `eval_constructor`. */
    method EvalConstructor(e: Dict, clsName: string) returns (o: Outcome)
      requires DictShaped(e) && DictKind(e) == Some(ConstructorDef)
      modifies this
      ensures var r := EvalMember(old(State()), draft, clsName, e);
        (r.Ok? ==> o == Pass && State() == r.value) && (r.Err? ==> o == Fail(r.error) && State() == old(State()))
    {
      if clsName != e["name"].s {
        return Fail(ConstructorMismatch);
      }
      AddConstructor(|e["args"].pairs|, e["args"].pairs, e["body"].s);
      o := Pass;
    }

    /** One dictionary of the class body, as `eval_class` dispatches it. */
    method EvalStatement(e: Dict) returns (o: Outcome)
      requires DictShaped(e)
      modifies this
      ensures var r := EvalMember(old(State()), draft, name, e);
        (r.Ok? ==> o == Pass && State() == r.value) && (r.Err? ==> o == Fail(r.error) && State() == old(State()))
    {
      o := Pass;
      match DictKind(e) {
        case Some(Declaration) => AddAttribute(e["type"].s, e["name"].s, e["static"].b);
        case Some(Assignment) => o := UpdateAttribute(e["name"].s, Some(e["value"].s));
        case Some(MethodDef) => AddMethod(e["type"].s, e["name"].s, e["body"].s, e["args"].pairs);
        case Some(ConstructorDef) => o := EvalConstructor(e, name);
        case _ =>
      }
    }

    /** `eval_class`: the class enters the registry under its name, then its
        body is evaluated in order until the first error. */
    method EvalClass(cls: Dict, reg: Registry) returns (o: Outcome)
      requires ClassDictShaped(cls)
      modifies this, reg
      ensures reg.classes == old(reg.classes)[name := this]
      ensures (State(), o) == EvalBody(old(State()), draft, name, cls["body"].dicts)
    {
      reg.classes := reg.classes[name := this];
      var body := cls["body"].dicts;
      var i := 0;
      o := Pass;
      while i < |body|
        invariant 0 <= i <= |body| && o == Pass && reg.classes == old(reg.classes)[name := this]
        invariant EvalBody(old(State()), draft, name, body) == EvalBody(State(), draft, name, body[i..])
      {
        assert body[i..][0] == body[i] && body[i..][1..] == body[i + 1..];
        o := EvalStatement(body[i]);
        if o.Fail? {
          return;
        }
        i := i + 1;
      }
      assert body[i..] == [];
    }
  }

  /** `InternalClass(cls)`: a new class object, registered under its name
      whether or not its body raises. */
  method NewInternalClass(d: Draft, cls: Dict, reg: Registry) returns (c: InternalClass, o: Outcome)
    requires ClassDictShaped(cls)
    modifies reg
    ensures fresh(c) && c.draft == d && c.name == cls["name"].s
    ensures reg.classes == old(reg.classes)[c.name := c]
    ensures (c.State(), o) == EvalBody(EMPTY, d, c.name, cls["body"].dicts)
  {
    c := new InternalClass(d, cls["name"].s);
    o := c.EvalClass(cls, reg);
  }

  // ---------------------------------------------------------------------------
  // Constructor parameters and the www draft's external view.

  /** The text `process_params` makes of one (type, name) pair. */
  function ParamText(p: (string, string)): string {
    p.0 + " " + p.1
  }

  /** `process_params`: the parameter texts, in order. */
  method ProcessParams(c: CtorEntry) returns (r: seq<string>)
    ensures |r| == |c.args| && forall i :: 0 <= i < |r| ==> r[i] == ParamText(c.args[i])
  {
    r := [];
    for i := 0 to |c.args|
      invariant |r| == i && forall j :: 0 <= j < i ==> r[j] == ParamText(c.args[j])
    {
      r := r + [c.args[i].0 + " " + c.args[i].1];
    }
  }

  /** A parameter text splits back into its type and its name when both are
      words, as the parser's validated names are. */
  lemma ParamTextWords(p: (string, string))
    requires p.0 != [] && NoSpace(p.0) && p.1 != [] && NoSpace(p.1)
    ensures Words(ParamText(p)) == [p.0, p.1]
  {
    WordsOfPair(p.0, p.1);
  }

  /** `(val, typ, var)`. */
  datatype Copied = Copied(value: Option<string>, dtype: string, name: string)

  /** `ExternalClass(cls)` of the www draft: the name and a copy of every
      attribute of either table as a (value, type, name) tuple, its value
      copied without evaluation; methods are not copied. */
  class ExternalClass {
    const name: string
    const methods: map<(string, nat), MethodEntry>
    const instance: map<string, Copied>
    const statics: map<string, Copied>

    constructor (cls: InternalClass)
      ensures name == cls.name && methods == map[]
      ensures instance.Keys == cls.instance.Keys && statics.Keys == cls.statics.Keys
      ensures forall n :: n in instance ==> instance[n] == Copied(cls.instance[n].value, cls.instance[n].dtype, n)
      ensures forall n :: n in statics ==> statics[n] == Copied(cls.statics[n].value, cls.statics[n].dtype, n)
    {
      name := cls.name;
      methods := map[];
      var inst := CopyAttributes(cls.instance);
      var stat := CopyAttributes(cls.statics);
      instance, statics := inst, stat;
    }
  }

  /** The loop of `_process_instance_attr` and `_process_static_attr`. */
  method CopyAttributes(attrs: map<string, Attr>) returns (r: map<string, Copied>)
    ensures r.Keys == attrs.Keys
    ensures forall n :: n in r ==> r[n] == Copied(attrs[n].value, attrs[n].dtype, n)
  {
    r := map[];
    var todo := attrs.Keys;
    while todo != {}
      invariant todo <= attrs.Keys && r.Keys == attrs.Keys - todo
      invariant forall n :: n in r ==> r[n] == Copied(attrs[n].value, attrs[n].dtype, n)
      decreases |todo|
    {
      var n :| n in todo;
      r := r[n := Copied(attrs[n].value, attrs[n].dtype, n)];
      todo := todo - {n};
    }
  }
}
