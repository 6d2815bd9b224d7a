/** The interface between the compiler and the interpreter
    (interface/structures.py, whose `ClassObj` is also the one of
    interface/primitives.py).

    Unlike the compiler's evaluator, these objects are filled by their callers:
    a `ClassObj` starts empty and takes `Variable` objects, methods and
    constructors one at a time, and an `Instance` takes its own copy of every
    field of its class, so that setting a field of one instance changes
    neither the class nor any other instance. */
module Structures {
  import opened Wrappers
  import opened Members

  /** `Variable`: a field whose value is updated in place. */
  class Variable {
    const name: string
    const dtype: string
    const isStatic: bool
    const isPrivate: bool
    var value: Option<string>

    /** The variable's fields as a record. */
    function Snapshot(): Var
      reads this
    {
      Var(name, dtype, isStatic, isPrivate, value)
    }

    /** `Variable(name, datatype, static, private)`: not yet initialised. */
    constructor (name: string, dtype: string, isStatic: bool, isPrivate: bool)
      ensures Snapshot() == Var(name, dtype, isStatic, isPrivate, None)
    {
      this.name, this.dtype, this.isStatic, this.isPrivate := name, dtype, isStatic, isPrivate;
      value := None;
    }

    /** `clone`: a new variable with the same name, type, flags and value. */
    method Clone() returns (v: Variable)
      ensures fresh(v) && v.Snapshot() == Snapshot()
    {
      v := new Variable(name, dtype, isStatic, isPrivate);
      v.value := value;
    }
  }

  // ---------------------------------------------------------------------------
  // Constructors: the check `declare_constructor` means to make.

  /** `declare_constructor` as written: `constructor.is_constructor` names the
      bound method instead of calling it, and a bound method is always true,
      so every record is stored under its number of parameters. */
  function StoreConstructorAsWritten(ctors: map<nat, Method>, c: Method): (r: Result<map<nat, Method>>)
    ensures r.Ok?
  {
    Ok(ctors[|c.params| := c])
  }

  /** `declare_constructor` with the call made: only a record without name and
      type is stored. */
  function StoreConstructor(ctors: map<nat, Method>, c: Method): Result<map<nat, Method>> {
    if !IsConstructor(c) then Err(NotAConstructor) else Ok(ctors[|c.params| := c])
  }

  /** As written, an ordinary named method is accepted as a constructor. */
  lemma NamedMethodAccepted(ctors: map<nat, Method>, name: string, dtype: string, ps: seq<Var>, body: string)
    requires name != ""
    ensures !IsConstructor(Method(Some(name), Some(dtype), ps, body))
    ensures StoreConstructorAsWritten(ctors, Method(Some(name), Some(dtype), ps, body))
      == Ok(ctors[|ps| := Method(Some(name), Some(dtype), ps, body)])
  {
  }

  /** With the check, exactly the constructors are stored, each under its
      number of parameters, replacing an earlier one of that length and
      leaving the other lengths alone. */
  lemma StoreConstructorFacts(ctors: map<nat, Method>, c: Method)
    ensures StoreConstructor(ctors, c).Ok? <==> IsConstructor(c)
    ensures !IsConstructor(c) ==> StoreConstructor(ctors, c) == Err(NotAConstructor)
    ensures IsConstructor(c) ==>
      var r := StoreConstructor(ctors, c).value;
      r.Keys == ctors.Keys + {|c.params|} && r[|c.params|] == c
      && forall n :: n in ctors && n != |c.params| ==> r[n] == ctors[n]
  {
  }

  // ---------------------------------------------------------------------------
  // Classes.

  class ClassObj {
    const name: string
    var isPrivate: bool
    var superclass: string
    var attrs: map<string, Variable>
    var methods: map<(Option<string>, nat), Method>
    var ctors: map<nat, Method>

    /** `ClassObj(name)`: public, extending Object, with no members. */
    constructor (name: string)
      ensures this.name == name && !isPrivate && superclass == "Object"
      ensures attrs == map[] && methods == map[] && ctors == map[]
    {
      this.name := name;
      isPrivate, superclass := false, "Object";
      attrs, methods, ctors := map[], map[], map[];
    }

    /** `declare_var`: the variable object itself becomes the field of its
        name, unless that name is already a field. */
    method DeclareVar(v: Variable) returns (o: Outcome)
      modifies this
      ensures v.name in old(attrs) ==> o == Fail(AlreadyDefined(v.name)) && attrs == old(attrs)
      ensures v.name !in old(attrs) ==> o == Pass && attrs == old(attrs)[v.name := v]
      ensures methods == old(methods) && ctors == old(ctors)
      ensures isPrivate == old(isPrivate) && superclass == old(superclass)
    {
      if v.name in attrs {
        return Fail(AlreadyDefined(v.name));
      }
      attrs := attrs[v.name := v];
      o := Pass;
    }

    /** `assign_var`: sets the value of a declared field, in place; nothing
        but that variable changes. */
    method AssignVar(varName: string, value: Option<string>) returns (o: Outcome)
      modifies if varName in attrs then {attrs[varName]} else {}
      ensures varName !in attrs ==> o == Fail(NotDefined(varName))
      ensures varName in attrs ==> o == Pass && attrs[varName].value == value
    {
      if varName !in attrs {
        return Fail(NotDefined(varName));
      }
      attrs[varName].value := value;
      o := Pass;
    }

    /** `declare_method`: keyed by (name, number of parameters); a taken key
        is an error. */
    method DeclareMethod(m: Method) returns (o: Outcome)
      modifies this
      ensures (m.name, |m.params|) in old(methods) ==>
        o == Fail(MethodDefined(m.name, |m.params|)) && methods == old(methods)
      ensures (m.name, |m.params|) !in old(methods) ==>
        o == Pass && methods == old(methods)[(m.name, |m.params|) := m]
      ensures attrs == old(attrs) && ctors == old(ctors)
      ensures isPrivate == old(isPrivate) && superclass == old(superclass)
    {
      var key := (m.name, |m.params|);
      if key in methods {
        return Fail(MethodDefined(m.name, |m.params|));
      }
      methods := methods[key := m];
      o := Pass;
    }

    /** `declare_constructor`, as written: never raises. */
    method DeclareConstructor(c: Method) returns (o: Outcome)
      modifies this
      ensures o == Pass && Ok(ctors) == StoreConstructorAsWritten(old(ctors), c)
      ensures attrs == old(attrs) && methods == old(methods)
      ensures isPrivate == old(isPrivate) && superclass == old(superclass)
    {
      ctors := ctors[|c.params| := c];
      o := Pass;
    }

    /** `declare_constructor` with `is_constructor()` called. */
    method DeclareConstructorChecked(c: Method) returns (o: Outcome)
      modifies this
      ensures var r := StoreConstructor(old(ctors), c);
        (r.Ok? ==> o == Pass && ctors == r.value) && (r.Err? ==> o == Fail(r.error) && ctors == old(ctors))
      ensures attrs == old(attrs) && methods == old(methods)
      ensures isPrivate == old(isPrivate) && superclass == old(superclass)
    {
      if !IsConstructor(c) {
        return Fail(NotAConstructor);
      }
      ctors := ctors[|c.params| := c];
      o := Pass;
    }

    /** `private(state=None)`: without an argument a query, with one a setter
        that returns None. */
    method Private(state: Option<bool>) returns (r: Option<bool>)
      modifies this
      ensures state.None? ==> r == Some(old(isPrivate)) && isPrivate == old(isPrivate)
      ensures state.Some? ==> r == None && isPrivate == state.value
      ensures superclass == old(superclass) && attrs == old(attrs) && methods == old(methods) && ctors == old(ctors)
    {
      if state.None? {
        return Some(isPrivate);
      }
      isPrivate := state.value;
      r := None;
    }

    /** `superclass(sup=None)`: without an argument a query, with one a setter
        that returns None. */
    method Superclass(sup: Option<string>) returns (r: Option<string>)
      modifies this
      ensures sup.None? ==> r == Some(old(superclass)) && superclass == old(superclass)
      ensures sup.Some? ==> r == None && superclass == sup.value
      ensures isPrivate == old(isPrivate) && attrs == old(attrs) && methods == old(methods) && ctors == old(ctors)
    {
      if sup.None? {
        return Some(superclass);
      }
      superclass := sup.value;
      r := None;
    }
  }

  // ---------------------------------------------------------------------------
  // Instances.

  /** The keys `Instance.__getitem__`/`__setitem__` take: a field name, a
      (name, number of arguments) pair, or a tuple of another length. */
  datatype Key = Name(name: string) | Pair(methodName: string, numArgs: nat) | OtherTuple(length: nat)

  /** What `__getitem__` returns. */
  datatype Member = Field(v: Variable) | Callable(m: Method)

  /** A clone of every variable of `fields`, each a new variable of its
      own. */
  method CloneFields(fields: map<string, Variable>) returns (m: map<string, Variable>)
    ensures m.Keys == fields.Keys
    ensures forall n :: n in m ==> fresh(m[n]) && m[n].Snapshot() == fields[n].Snapshot()
    ensures forall a, b :: a in m && b in m && a != b ==> m[a] != m[b]
  {
    m := map[];
    var todo := fields.Keys;
    while todo != {}
      invariant todo <= fields.Keys && m.Keys == fields.Keys - todo
      invariant forall n :: n in m ==> fresh(m[n]) && m[n].Snapshot() == fields[n].Snapshot()
      invariant forall a, b :: a in m && b in m && a != b ==> m[a] != m[b]
      decreases |todo|
    {
      var n :| n in todo;
      ghost var before := m;
      var v := fields[n].Clone();
      m := m[n := v];
      forall x | x in m ensures fresh(m[x]) && m[x].Snapshot() == fields[x].Snapshot() {
        if x != n { assert m[x] == before[x]; }
      }
      forall a, b | a in m && b in m && a != b ensures m[a] != m[b] {
        if a != n && b != n { assert m[a] == before[a] && m[b] == before[b]; }
      }
      todo := todo - {n};
    }
  }

  class Instance {
    const cls: ClassObj
    const attrs: map<string, Variable>

    /** `Instance(cls)`: a clone of every field of the class, each a new
        variable of its own. */
    constructor (cls: ClassObj)
      ensures this.cls == cls && attrs.Keys == cls.attrs.Keys
      ensures forall n :: n in attrs ==> fresh(attrs[n]) && attrs[n].Snapshot() == cls.attrs[n].Snapshot()
      ensures forall a, b :: a in attrs && b in attrs && a != b ==> attrs[a] != attrs[b]
    {
      var m := CloneFields(cls.attrs);
      this.cls := cls;
      attrs := m;
    }

    /** `getattr`: the variable of that name, or an AttributeError. */
    method GetAttr(name: string) returns (r: Result<Variable>)
      ensures name in attrs ==> r == Ok(attrs[name])
      ensures name !in attrs ==> r == Err(NoVariable(cls.name, name))
    {
      if name !in attrs {
        return Err(NoVariable(cls.name, name));
      }
      r := Ok(attrs[name]);
    }

    /** `setattr`: sets the value of one of the instance's own variables. */
    method SetAttr(name: string, value: Option<string>) returns (o: Outcome)
      modifies if name in attrs then {attrs[name]} else {}
      ensures name !in attrs ==> o == Fail(NoVariable(cls.name, name))
      ensures name in attrs ==> o == Pass && attrs[name].value == value
    {
      if name !in attrs {
        return Fail(NoVariable(cls.name, name));
      }
      attrs[name].value := value;
      o := Pass;
    }

    /** `get_method`: the class's own name asks for a constructor of that many
        parameters, any other name for the method of that name and count. */
    method GetMethod(name: string, numArgs: nat) returns (r: Result<Method>)
      ensures name == cls.name ==>
        r == (if numArgs in cls.ctors then Ok(cls.ctors[numArgs]) else Err(NoConstructor(cls.name, numArgs)))
      ensures name != cls.name ==>
        r == (if (Some(name), numArgs) in cls.methods then Ok(cls.methods[(Some(name), numArgs)])
              else Err(NoMethod(cls.name, name)))
    {
      if name == cls.name {
        if numArgs !in cls.ctors {
          return Err(NoConstructor(cls.name, numArgs));
        }
        return Ok(cls.ctors[numArgs]);
      } else if (Some(name), numArgs) in cls.methods {
        return Ok(cls.methods[(Some(name), numArgs)]);
      }
      r := Err(NoMethod(cls.name, name));
    }

    /** `instance[key]`: a pair looks up a method, a name a variable; another
        tuple reaches `getattr`, whose message cannot concatenate it. */
    method GetItem(key: Key) returns (r: Result<Member>)
      ensures key.Pair? && key.methodName == cls.name ==>
        r == (if key.numArgs in cls.ctors then Ok(Callable(cls.ctors[key.numArgs]))
              else Err(NoConstructor(cls.name, key.numArgs)))
      ensures key.Pair? && key.methodName != cls.name ==>
        r == (if (Some(key.methodName), key.numArgs) in cls.methods
              then Ok(Callable(cls.methods[(Some(key.methodName), key.numArgs)]))
              else Err(NoMethod(cls.name, key.methodName)))
      ensures key.Name? ==>
        r == (if key.name in attrs then Ok(Field(attrs[key.name])) else Err(NoVariable(cls.name, key.name)))
      ensures key.OtherTuple? ==> r == Err(TupleConcatenation)
    {
      match key {
        case Pair(n, k) =>
          var m :- GetMethod(n, k);
          return Ok(Callable(m));
        case Name(n) =>
          var v :- GetAttr(n);
          return Ok(Field(v));
        case OtherTuple(_) =>
          return Err(TupleConcatenation);
      }
    }

    /** `instance[key] = value`: only a field name can be set. */
    method SetItem(key: Key, value: Option<string>) returns (o: Outcome)
      modifies if key.Name? && key.name in attrs then {attrs[key.name]} else {}
      ensures !key.Name? ==> o == Fail(MethodRedefinition)
      ensures key.Name? && key.name !in attrs ==> o == Fail(NoVariable(cls.name, key.name))
      ensures key.Name? && key.name in attrs ==> o == Pass && attrs[key.name].value == value
    {
      if !key.Name? {
        return Fail(MethodRedefinition);
      }
      o := SetAttr(key.name, value);
    }
  }

  /** Two instances of one class, and a field set on the first: the class's
      fields and the second instance's fields keep their values. */
  method SeparateInstances(cls: ClassObj, name: string, value: Option<string>)
    returns (a: Instance, b: Instance, o: Outcome)
    ensures a.cls == cls && b.cls == cls && a.attrs.Keys == cls.attrs.Keys && b.attrs.Keys == cls.attrs.Keys
    ensures o.Pass? <==> name in cls.attrs
    ensures name in cls.attrs ==> a.attrs[name].value == value
    ensures cls.attrs == old(cls.attrs)
    ensures forall n :: n in cls.attrs ==> cls.attrs[n].Snapshot() == old(cls.attrs[n].Snapshot())
    ensures forall n :: n in b.attrs ==> b.attrs[n].Snapshot() == cls.attrs[n].Snapshot()
  {
    a := new Instance(cls);
    b := new Instance(cls);
    o := a.SetAttr(name, value);
  }
}
