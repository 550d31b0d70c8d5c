/** A small HCL: values, expressions, bodies, and their evaluation. */
module Hcl {
  import opened Wrappers

  /** A value. `Id` is the id of a resource of the stack, known after apply. */
  datatype Value =
    | Str(s: string)
    | Num(n: real)
    | Bool(b: bool)
    | List(items: seq<Value>)
    | Obj(fields: map<string, Value>)
    | Id(resourceType: string, name: string)
    | Null

  datatype Step = Attr(name: string) | Index(key: Value)

  /** Operators, an object constructor with its keys, and an index: forms whose
      value is made of all their parts' values. */
  datatype Form =
    | Add | Sub | Mul | Div | Neg
    | Less | LessOrEqual | Greater | GreaterOrEqual | Equal | NotEqual
    | And | Or | Not
    | Object(keys: seq<string>)
    | At

  datatype Expr =
    | Lit(v: Value)
    | Traversal(root: string, steps: seq<Step>)
    | Tuple(exprs: seq<Expr>)
    | Template(parts: seq<Expr>)
    | Cond(c: Expr, t: Expr, f: Expr)
    | Paren(e: Expr)
    | Call(name: string, args: seq<Expr>)
    | Made(form: Form, parts: seq<Expr>)

  datatype Body = Body(attrs: map<string, Expr>, blocks: seq<Block>)

  datatype Block = Block(typ: string, labels: seq<string>, body: Body)

  /** What an expression may read when the stack is evaluated: variables, the
      stack's resources, any other reference, and functions, which may look at
      a failed argument (try does). */
  datatype Scope = Scope(
    vars: map<string, Value>,
    declared: set<(string, string)>,
    other: (string, seq<Step>) -> Option<Value>,
    funcs: (string, seq<Option<Value>>) -> Option<Value>)

  predicate Primitive(v: Value) {
    v.Str? || v.Num? || v.Bool?
  }

  /** What the steps after a reference's head reach; a primitive has no parts. */
  function Walk(v: Value, steps: seq<Step>): Option<Value>
    decreases |steps|
  {
    if steps == [] then Some(v)
    else match (v, steps[0])
      case (Obj(fields), Attr(n)) => if n in fields then Walk(fields[n], steps[1..]) else None
      case (List(items), Index(Num(k))) =>
        if 0 <= k.Floor < |items| && k == k.Floor as real then Walk(items[k.Floor], steps[1..]) else None
      case _ => None
  }

  function Deref(root: string, steps: seq<Step>, scope: Scope): Option<Value> {
    if root == "var" then
      if steps != [] && steps[0].Attr? && steps[0].name in scope.vars then Walk(scope.vars[steps[0].name], steps[1..]) else None
    else if |steps| == 2 && steps[0].Attr? && steps[1] == Attr("id") then
      if (root, steps[0].name) in scope.declared then Some(Id(root, steps[0].name)) else None
    else scope.other(root, steps)
  }

  /** A template part's text. */
  function Text(v: Value): Option<string> {
    match v
    case Str(s) => Some(s)
    case Bool(b) => Some(if b then "true" else "false")
    case _ => None
  }

  function Join(vs: seq<Option<Value>>): Option<string> {
    if vs == [] then Some("")
    else if vs[0].None? || Text(vs[0].value).None? || Join(vs[1..]).None? then None
    else Some(Text(vs[0].value).value + Join(vs[1..]).value)
  }

  predicate AllSome(vs: seq<Option<Value>>) {
    forall i :: 0 <= i < |vs| ==> vs[i].Some?
  }

  function Values(vs: seq<Option<Value>>): seq<Value>
    requires AllSome(vs)
  {
    seq(|vs|, i requires 0 <= i < |vs| => vs[i].value)
  }

  /** A form's value, if its parts' values have one. */
  function Make(form: Form, vs: seq<Value>): Option<Value> {
    if form.Object? then
      if |form.keys| == |vs| then Some(Obj(map k | k in form.keys :: vs[LastAt(form.keys, k)])) else None
    else if form.At? then
      if |vs| == 2 && vs[1].Str? then Walk(vs[0], [Attr(vs[1].s)])
      else if |vs| == 2 then Walk(vs[0], [Index(vs[1])]) else None
    else if |vs| == 1 then
      match (form, vs[0])
      case (Neg, Num(a)) => Some(Num(-a))
      case (Not, Bool(a)) => Some(Bool(!a))
      case _ => None
    else if |vs| == 2 then
      match (form, vs[0], vs[1])
      case (Add, Num(a), Num(b)) => Some(Num(a + b))
      case (Sub, Num(a), Num(b)) => Some(Num(a - b))
      case (Mul, Num(a), Num(b)) => Some(Num(a * b))
      case (Div, Num(a), Num(b)) => if b == 0.0 then None else Some(Num(a / b))
      case (Less, Num(a), Num(b)) => Some(Bool(a < b))
      case (LessOrEqual, Num(a), Num(b)) => Some(Bool(a <= b))
      case (Greater, Num(a), Num(b)) => Some(Bool(a > b))
      case (GreaterOrEqual, Num(a), Num(b)) => Some(Bool(a >= b))
      case (Equal, a, b) => Some(Bool(a == b))
      case (NotEqual, a, b) => Some(Bool(a != b))
      case (And, Bool(a), Bool(b)) => Some(Bool(a && b))
      case (Or, Bool(a), Bool(b)) => Some(Bool(a || b))
      case _ => None
    else None
  }

  /** Where a key stands last among an object's: a later item wins. */
  function LastAt(keys: seq<string>, k: string): (i: nat)
    requires k in keys
    ensures i < |keys| && keys[i] == k && k !in keys[i + 1..]
  {
    if keys[|keys| - 1] == k then |keys| - 1
    else
      var init := keys[..|keys| - 1];
      var i := LastAt(init, k);
      assert keys[i + 1..] == init[i + 1..] + [keys[|keys| - 1]];
      i
  }

  /** An expression's value in a scope; None is an error. With no scope only
      constants have a value: a reference or a call is an error. */
  function Eval(e: Expr, scope: Option<Scope>): Option<Value>
    decreases e
  {
    match e
    case Lit(v) => Some(v)
    case Traversal(root, steps) => if scope.None? then None else Deref(root, steps, scope.value)
    case Tuple(exprs) =>
      var vs := EvalAll(exprs, scope);
      if AllSome(vs) then Some(List(Values(vs))) else None
    case Template(parts) =>
      var text := Join(EvalAll(parts, scope));
      if text.Some? then Some(Str(text.value)) else None
    case Cond(c, t, f) =>
      var (vc, vt, vf) := (Eval(c, scope), Eval(t, scope), Eval(f, scope));
      if vc.Some? && vc.value.Bool? && vt.Some? && vf.Some? then (if vc.value.b then vt else vf) else None
    case Paren(inner) => Eval(inner, scope)
    case Call(name, args) => if scope.None? then None else scope.value.funcs(name, EvalAll(args, scope))
    case Made(form, parts) =>
      var vs := EvalAll(parts, scope);
      if AllSome(vs) then Make(form, Values(vs)) else None
  }

  function EvalAll(es: seq<Expr>, scope: Option<Scope>): (vs: seq<Option<Value>>)
    ensures |vs| == |es|
    decreases es
  {
    if es == [] then [] else [Eval(es[0], scope)] + EvalAll(es[1..], scope)
  }

  /** A constant keeps its value in every scope. */
  lemma {:induction false} ConstantInAnyScope(e: Expr, scope: Scope)
    requires Eval(e, None).Some?
    ensures Eval(e, Some(scope)) == Eval(e, None)
    decreases e
  {
    match e
    case Lit(v) =>
    case Traversal(root, steps) =>
    case Tuple(exprs) => ConstantsInAnyScope(exprs, scope);
    case Template(parts) =>
      JoinedAllSome(EvalAll(parts, None));
      ConstantsInAnyScope(parts, scope);
    case Cond(c, t, f) =>
      ConstantInAnyScope(c, scope);
      ConstantInAnyScope(t, scope);
      ConstantInAnyScope(f, scope);
    case Paren(inner) => ConstantInAnyScope(inner, scope);
    case Call(name, args) =>
    case Made(form, parts) => ConstantsInAnyScope(parts, scope);
  }

  lemma {:induction false} ConstantsInAnyScope(es: seq<Expr>, scope: Scope)
    requires AllSome(EvalAll(es, None))
    ensures EvalAll(es, Some(scope)) == EvalAll(es, None)
    decreases es
  {
    if es != [] {
      var vs := EvalAll(es, None);
      assert vs[0] == Eval(es[0], None) && vs[1..] == EvalAll(es[1..], None);
      assert AllSome(vs[1..]);
      ConstantInAnyScope(es[0], scope);
      ConstantsInAnyScope(es[1..], scope);
    }
  }

  lemma {:induction false} JoinedAllSome(vs: seq<Option<Value>>)
    requires Join(vs).Some?
    ensures AllSome(vs)
  {
    if vs != [] {
      JoinedAllSome(vs[1..]);
      forall i | 0 <= i < |vs| ensures vs[i].Some? {
        if i > 0 {
          assert vs[1..][i - 1].Some?;
        }
      }
    }
  }

  // ----- Function calls -----

  /** The functions an expression calls anywhere inside it. */
  predicate CallsOnly(e: Expr, allowed: set<string>)
    decreases e
  {
    match e
    case Lit(v) => true
    case Traversal(root, steps) => true
    case Tuple(exprs) => AllCallOnly(exprs, allowed)
    case Template(parts) => AllCallOnly(parts, allowed)
    case Cond(c, t, f) => CallsOnly(c, allowed) && CallsOnly(t, allowed) && CallsOnly(f, allowed)
    case Paren(inner) => CallsOnly(inner, allowed)
    case Call(name, args) => name in allowed && AllCallOnly(args, allowed)
    case Made(form, parts) => AllCallOnly(parts, allowed)
  }

  predicate AllCallOnly(es: seq<Expr>, allowed: set<string>)
    decreases es
  {
    es == [] || (CallsOnly(es[0], allowed) && AllCallOnly(es[1..], allowed))
  }

  /** Two scopes that differ only in functions outside `allowed`. */
  ghost predicate SameBut(a: Scope, b: Scope, allowed: set<string>) {
    && a.vars == b.vars && a.declared == b.declared
    && (forall r, s :: a.other(r, s) == b.other(r, s))
    && (forall n, vs :: n in allowed ==> a.funcs(n, vs) == b.funcs(n, vs))
  }

  /** An expression that calls only allowed functions cannot see any other. */
  lemma {:induction false} BlindToOtherFunctions(e: Expr, a: Scope, b: Scope, allowed: set<string>)
    requires CallsOnly(e, allowed) && SameBut(a, b, allowed)
    ensures Eval(e, Some(a)) == Eval(e, Some(b))
    decreases e
  {
    match e
    case Lit(v) =>
    case Traversal(root, steps) => assert a.other(root, steps) == b.other(root, steps);
    case Tuple(exprs) => AllBlindToOtherFunctions(exprs, a, b, allowed);
    case Template(parts) => AllBlindToOtherFunctions(parts, a, b, allowed);
    case Cond(c, t, f) =>
      BlindToOtherFunctions(c, a, b, allowed);
      BlindToOtherFunctions(t, a, b, allowed);
      BlindToOtherFunctions(f, a, b, allowed);
    case Paren(inner) => BlindToOtherFunctions(inner, a, b, allowed);
    case Call(name, args) =>
      AllBlindToOtherFunctions(args, a, b, allowed);
      assert a.funcs(name, EvalAll(args, Some(a))) == b.funcs(name, EvalAll(args, Some(a)));
    case Made(form, parts) => AllBlindToOtherFunctions(parts, a, b, allowed);
  }

  lemma {:induction false} AllBlindToOtherFunctions(es: seq<Expr>, a: Scope, b: Scope, allowed: set<string>)
    requires AllCallOnly(es, allowed) && SameBut(a, b, allowed)
    ensures EvalAll(es, Some(a)) == EvalAll(es, Some(b))
    decreases es
  {
    if es != [] {
      BlindToOtherFunctions(es[0], a, b, allowed);
      AllBlindToOtherFunctions(es[1..], a, b, allowed);
    }
  }
}
