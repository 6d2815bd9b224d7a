/** The parse results of both parser drafts.  The compiler draft wraps each
    statement in a `Statement` object (a type string and a keyword map); the
    frontend draft returns a plain dictionary with an 'op' key.  Both hold the
    same kinds of values. */
module Statements {
  import opened Wrappers

  /** The values a parsed statement holds under its keys. */
  datatype Value =
    | Str(s: string)
    | Bool(b: bool)
    | NoneValue
    | Pairs(pairs: seq<(string, string)>)        // method and constructor parameters
    | Stmts(stmts: seq<Statement>)               // a compiler class body
    | Dicts(dicts: seq<map<string, Value>>)      // a frontend class body

  /** The statement types the parsers produce; `Name()` is the type string the
      source stores. */
  datatype Kind = ClassDef | Declaration | Assignment | MethodDef | ConstructorDef {
    function Name(): string {
      match this
      case ClassDef => "class"
      case Declaration => "declare"
      case Assignment => "assign"
      case MethodDef => "method"
      case ConstructorDef => "constructor"
    }
  }

  /** `Statement(stmt_type, **kargs)`. */
  datatype Statement = Statement(kind: Kind, kargs: map<string, Value>)

  type Dict = map<string, Value>

  /** `stmt[key]`: the value under `key`, or a KeyError. */
  function GetItem(s: Statement, key: string): (r: Result<Value>)
    ensures r.Ok? <==> key in s.kargs
    ensures r.Ok? ==> r.value == s.kargs[key]
    ensures r.Err? ==> r.error == KeyError
  {
    if key in s.kargs then Ok(s.kargs[key]) else Err(KeyError)
  }

  /** `stmt[key] = v`: afterwards `stmt[key]` is `v`, every other key reads as
      before and the type is unchanged. */
  function SetItem(s: Statement, key: string, v: Value): (r: Statement)
    ensures GetItem(r, key) == Ok(v)
    ensures forall k :: k != key ==> GetItem(r, k) == GetItem(s, k)
    ensures r.kind == s.kind
  {
    Statement(s.kind, s.kargs[key := v])
  }

  /** `a == b`: same type and the same keyword map. */
  function Equals(a: Statement, b: Statement): (r: bool)
    ensures r <==> a == b
  {
    a.kind == b.kind && a.kargs == b.kargs
  }

  function OptionValue(o: Option<string>): Value {
    if o.Some? then Str(o.value) else NoneValue
  }

  function ClassStmt(name: string, body: seq<Statement>, superclass: Option<string>, isPrivate: bool): (s: Statement)
    ensures s.kind == ClassDef && "name" in s.kargs && s.kargs["name"] == Str(name)
    ensures "body" in s.kargs && s.kargs["body"] == Stmts(body)
    ensures "super" in s.kargs && s.kargs["super"] == OptionValue(superclass)
    ensures "private" in s.kargs && s.kargs["private"] == Bool(isPrivate)
  {
    Statement(ClassDef, map["name" := Str(name), "body" := Stmts(body),
                         "super" := OptionValue(superclass), "private" := Bool(isPrivate)])
  }

  function DeclareStmt(name: string, dtype: string, isPrivate: bool, isStatic: bool): (s: Statement)
    ensures s.kind == Declaration && "name" in s.kargs && s.kargs["name"] == Str(name)
    ensures "type" in s.kargs && s.kargs["type"] == Str(dtype)
    ensures "private" in s.kargs && s.kargs["private"] == Bool(isPrivate)
    ensures "static" in s.kargs && s.kargs["static"] == Bool(isStatic)
  {
    Statement(Declaration, map["name" := Str(name), "type" := Str(dtype),
                           "private" := Bool(isPrivate), "static" := Bool(isStatic)])
  }

  function AssignStmt(name: string, value: string): (s: Statement)
    ensures s.kind == Assignment && "name" in s.kargs && s.kargs["name"] == Str(name)
    ensures "value" in s.kargs && s.kargs["value"] == Str(value)
  {
    Statement(Assignment, map["name" := Str(name), "value" := Str(value)])
  }

  function MethodStmt(name: string, dtype: string, args: seq<(string, string)>, body: string,
                      isPrivate: bool, isStatic: bool): (s: Statement)
    ensures s.kind == MethodDef && "name" in s.kargs && s.kargs["name"] == Str(name)
    ensures "type" in s.kargs && s.kargs["type"] == Str(dtype)
    ensures "args" in s.kargs && s.kargs["args"] == Pairs(args)
    ensures "body" in s.kargs && s.kargs["body"] == Str(body)
    ensures "private" in s.kargs && s.kargs["private"] == Bool(isPrivate)
    ensures "static" in s.kargs && s.kargs["static"] == Bool(isStatic)
  {
    Statement(MethodDef, map["name" := Str(name), "type" := Str(dtype), "args" := Pairs(args),
                          "body" := Str(body), "private" := Bool(isPrivate), "static" := Bool(isStatic)])
  }

  function ConstructorStmt(name: string, args: seq<(string, string)>, body: string, isPrivate: bool): (s: Statement)
    ensures s.kind == ConstructorDef && "name" in s.kargs && s.kargs["name"] == Str(name)
    ensures "args" in s.kargs && s.kargs["args"] == Pairs(args)
    ensures "body" in s.kargs && s.kargs["body"] == Str(body)
    ensures "private" in s.kargs && s.kargs["private"] == Bool(isPrivate)
  {
    Statement(ConstructorDef, map["name" := Str(name), "args" := Pairs(args), "body" := Str(body),
                               "private" := Bool(isPrivate)])
  }

  // ---------------------------------------------------------------------------
  // The shape of a member statement as the class evaluators read it.

  predicate HasStr(m: Dict, key: string) { key in m && m[key].Str? }
  predicate HasBool(m: Dict, key: string) { key in m && m[key].Bool? }
  predicate HasPairs(m: Dict, key: string) { key in m && m[key].Pairs? }

  /** The keys an evaluator reads from a member of kind `kind` are present with
      values of the right form; kinds no evaluator handles carry no demand. */
  predicate MemberShaped(kind: Kind, m: Dict) {
    match kind
    case Declaration => HasStr(m, "name") && HasStr(m, "type") && HasBool(m, "private") && HasBool(m, "static")
    case Assignment => HasStr(m, "name") && HasStr(m, "value")
    case MethodDef =>
      HasStr(m, "name") && HasStr(m, "type") && HasPairs(m, "args") && HasStr(m, "body")
      && HasBool(m, "private") && HasBool(m, "static")
    case ConstructorDef => HasStr(m, "name") && HasPairs(m, "args") && HasStr(m, "body") && HasBool(m, "private")
    case ClassDef => true
  }

  /** A compiler class statement whose fields and members the evaluator can read. */
  predicate ClassShaped(s: Statement) {
    s.kind == ClassDef ==>
      HasStr(s.kargs, "name") && "body" in s.kargs && s.kargs["body"].Stmts?
      && "super" in s.kargs && (s.kargs["super"].Str? || s.kargs["super"].NoneValue?)
      && HasBool(s.kargs, "private")
      && forall i :: 0 <= i < |s.kargs["body"].stmts| ==>
           MemberShaped(s.kargs["body"].stmts[i].kind, s.kargs["body"].stmts[i].kargs)
  }

  /** Every statement a parser builds has the shape of its kind. */
  lemma BuiltShapes(name: string, dtype: string, args: seq<(string, string)>, body: string, p: bool, st: bool)
    ensures MemberShaped(Declaration, DeclareStmt(name, dtype, p, st).kargs)
    ensures MemberShaped(Assignment, AssignStmt(name, body).kargs)
    ensures MemberShaped(MethodDef, MethodStmt(name, dtype, args, body, p, st).kargs)
    ensures MemberShaped(ConstructorDef, ConstructorStmt(name, args, body, p).kargs)
  {
  }

  // ---------------------------------------------------------------------------
  // The frontend draft's dictionaries.

  /** The kind of statement a frontend dictionary's 'op' names, if any. */
  function DictKind(d: Dict): Option<Kind>
    requires "op" in d
  {
    var op := d["op"];
    if !op.Str? then None
    else if op.s == "declare" then Some(Declaration)
    else if op.s == "assign" then Some(Assignment)
    else if op.s == "method" then Some(MethodDef)
    else if op.s == "constructor" then Some(ConstructorDef)
    else if op.s == "class" then Some(ClassDef)
    else None
  }

  /** A dictionary with an 'op' whose member keys, if it names a member, are
      present with values of the right form. */
  predicate DictShaped(d: Dict) {
    "op" in d && (DictKind(d).Some? ==> MemberShaped(DictKind(d).value, d))
  }
}
