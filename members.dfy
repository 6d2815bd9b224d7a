/** The field and method records of the class registries.  The compiler
    (compiler/compile_eval.py) and both interface drafts
    (interface/primitives.py, interface/structures.py) define the same
    `Variable` and `Method`; their records are modelled once, here. */
module Members {
  import opened Wrappers

  /** `Variable(name, datatype, static, private)` and its current value, which
      starts as None. */
  datatype Var = Var(name: string, dtype: string, isStatic: bool, isPrivate: bool, value: Option<string>)

  /** `Method(name, datatype, args, body)`.  A constructor is a Method whose
      name and type are None. */
  datatype Method = Method(name: Option<string>, dtype: Option<string>, params: seq<Var>, body: string)

  /** Python truthiness of an optional string: None and '' are false. */
  predicate Truthy(o: Option<string>) {
    o.Some? && o.value != ""
  }

  /** `is_constructor`: neither the name nor the type is truthy, that is each
      is None or the empty text. */
  predicate IsConstructor(m: Method)
    ensures IsConstructor(m) <==> (m.name == None || m.name == Some("")) && (m.dtype == None || m.dtype == Some(""))
  {
    !Truthy(m.name) && !Truthy(m.dtype)
  }

  /** The parameter a (type, name) pair declares. */
  function Param(p: (string, string)): Var {
    Var(p.1, p.0, false, false, None)
  }

  /** The parameters the pairs declare, in order. */
  function Params(args: seq<(string, string)>): (ps: seq<Var>)
    ensures |ps| == |args|
  {
    seq(|args|, i requires 0 <= i < |args| => Param(args[i]))
  }

  /** The (type, name) pairs of a parameter list. */
  function Signature(ps: seq<Var>): (sig: seq<(string, string)>)
    ensures |sig| == |ps|
  {
    if ps == [] then [] else [(ps[0].dtype, ps[0].name)] + Signature(ps[1..])
  }

  /** `Method.__init__`: one parameter per (type, name) pair, appended in order. */
  method NewMethod(name: Option<string>, dtype: Option<string>, args: seq<(string, string)>, body: string)
    returns (m: Method)
    ensures m == Method(name, dtype, Params(args), body)
  {
    var ps: seq<Var> := [];
    for i := 0 to |args|
      invariant ps == Params(args[..i])
    {
      assert args[..i + 1] == args[..i] + [args[i]];
      ps := ps + [Param(args[i])];
    }
    assert args[..|args|] == args;
    m := Method(name, dtype, ps, body);
  }

  /** A method's parameters give back the pairs it was built from, and every
      parameter starts unset, neither static nor private. */
  lemma {:induction false} ParamsRoundTrip(args: seq<(string, string)>)
    ensures Signature(Params(args)) == args
    ensures forall i :: 0 <= i < |args| ==>
      Params(args)[i].value == None && !Params(args)[i].isStatic && !Params(args)[i].isPrivate
  {
    if args != [] {
      ParamsRoundTrip(args[1..]);
      assert Params(args)[1..] == Params(args[1..]);
    }
  }

  /** `is_constructor` holds exactly when neither the name nor the type is
      truthy; the records `eval_constructor` builds are constructors and a
      method with a non-empty name is not. */
  lemma ConstructorIff(m: Method)
    ensures IsConstructor(m) <==> (m.name == None || m.name == Some("")) && (m.dtype == None || m.dtype == Some(""))
    ensures m.name.None? && m.dtype.None? ==> IsConstructor(m)
    ensures m.name.Some? && m.name.value != "" ==> !IsConstructor(m)
  {
  }
}
