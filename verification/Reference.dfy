/** A big-step evaluator for the same fragment, by names instead of slots and
    by recursion instead of stacks.  Operands are evaluated right to left.
    Names belong to the function: a `let` declares its name for everything the
    compiler visits later, executed or not, and a declared name that was never
    assigned reads as 0. */
module Reference {
  import opened Lang

  datatype Outcome =
    | Val(v: Value)      // the expression has a value
    | Ret(v: Value)      // a `return` is on its way to the enclosing lambda
    | Fail(f: Failure)   // an error is on its way to the innermost `try`
    | Timeout            // the call depth ran out

  type Vars = map<Sym, Value>

  datatype Res = Res(o: Outcome, vars: Vars, w: World)

  datatype ArgsRes = Args(vs: seq<Value>, vars: Vars, w: World) | Stopped(r: Res)

  datatype CallRes = CallRes(o: Outcome, w: World)

  /** The running lambda and its surroundings; `native` are the lambdas that run as bytecode. */
  datatype Env = Env(prog: Program, native: set<LamId>, host: Host, self: LamId) {
    predicate Valid() {
      self in prog && native <= prog.Keys
    }
  }

  /** The names declared once `e` has been visited, given those declared before. */
  function Declared(e: Expr, d: set<Sym>, view: View): set<Sym>
    decreases e, 1
  {
    match e
    case Set(_, x) => Declared(x, d, view)
    case Let(s, x) => Declared(x, d, view) + {s}
    case IfElse(c, t, f) => Declared(f, Declared(t, Declared(c, d, view), view), view)
    case Do(es) => DeclaredBody(es, d, view)
    case Try(b, h) => Declared(h, Declared(b, d, view), view)
    case Return(x) => Declared(x, d, view)
    case SelfCall(args) => DeclaredArgs(args, d, view)
    case Call(head, args) => DeclaredArgs(args, DeclaredHead(head, d, view), view)
    case _ => d
  }

  function DeclaredHead(head: Expr, d: set<Sym>, view: View): set<Sym>
    decreases head, 2
  {
    if KnownHead(head, view).Fn? then d else Declared(head, d, view)
  }

  function DeclaredArgs(args: seq<Expr>, d: set<Sym>, view: View): set<Sym>
    decreases args, 0
  {
    if args == [] then d
    else DeclaredArgs(args[..|args| - 1], Declared(args[|args| - 1], d, view), view)
  }

  function DeclaredBody(es: seq<Expr>, d: set<Sym>, view: View): set<Sym>
    decreases es, 0
  {
    if es == [] then d else DeclaredBody(es[1..], Declared(es[0], d, view), view)
  }

  function Bind(params: seq<Sym>, vs: seq<Value>): Vars
    requires |params| == |vs|
  {
    if params == [] then map[]
    else
      var n := |params| - 1;
      Bind(params[..n], vs[..n])[params[n] := vs[n]]
  }

  /** What an operation that may fail has returned: an error object is an error. */
  function Checked(v: Value): Outcome {
    if v.ErrObj? then Fail(Failure(true, v.code)) else Val(v)
  }

  function ArityError(): Outcome {
    Fail(Failure(true, Arity))
  }

  /** `set`: the value is bound and stays the result, or the binding is refused. */
  function Store(r: Res, s: Sym): Res
    requires r.o.Val?
  {
    match SetGlobal(r.w.globals, s, r.o.v)
    case NotBound(code) => r.(o := Fail(Failure(true, code)))
    case Rebound(globals) => r.(w := r.w.(globals := globals))
  }

  function AskHost(env: Env, op: CallOp, f: Value, vs: seq<Value>, w: World): CallRes {
    var (v, w1) := env.host.invoke(op, f, vs, w);
    CallRes(Checked(v), w1)
  }

  /** Apply an evaluated head to evaluated operands. */
  function CallValue(env: Env, op: CallOp, f: Value, vs: seq<Value>, w: World, k: nat): CallRes
    requires env.Valid()
    decreases k, 1, 0
  {
    if op.ByCallF? && f.Lam? && f.id in env.native then
      if |vs| != |env.prog[f.id].params| then CallRes(ArityError(), w)
      else Invoke(env.(self := f.id), vs, w, k)
    else if op.ByCallF? && f.Fn? && ((f.kind.Unary? && |vs| != 1) || (f.kind.Binary? && |vs| != 2)) then
      CallRes(ArityError(), w)
    else AskHost(env, op, f, vs, w)
  }

  /** `ray_try_handle`: a callable handler receives the error, any other is the
      answer. An answer that is an error object is an error again. */
  function Handle(env: Env, f: Value, err: Value, w: World, k: nat): CallRes
    requires env.Valid()
    decreases k, 1, 0
  {
    if f.Lam? && f.id in env.native then
      if |env.prog[f.id].params| != 1 then CallRes(ArityError(), w)
      else
        var r := Invoke(env.(self := f.id), [err], w, k);
        CallRes(if r.o.Val? then Checked(r.o.v) else if r.o.Fail? then Fail(Failure(true, r.o.f.code)) else r.o, r.w)
    else if f.Lam? || (f.Fn? && f.kind.Unary?) then AskHost(env, ByHandler, f, [err], w)
    else CallRes(Checked(f), w)
  }

  /** Run the body of `env.self`; an empty body answers null. */
  function Invoke(env: Env, vs: seq<Value>, w: World, k: nat): CallRes
    requires env.Valid() && |vs| == |env.prog[env.self].params|
    decreases k, 0, 0
  {
    if k == 0 then CallRes(Timeout, w)
    else
      var l := env.prog[env.self];
      var r := EvalBody(env, l.body, (set s | s in l.params), Bind(l.params, vs), w, k - 1);
      CallRes(if r.o.Ret? then Val(r.o.v) else r.o, r.w)
  }

  function EvalBody(env: Env, es: seq<Expr>, d: set<Sym>, vars: Vars, w: World, k: nat): Res
    requires env.Valid()
    decreases k, 2, es, 0
  {
    if es == [] then Res(Val(Null), vars, w)
    else
      var r := Eval(env, es[0], d, vars, w, k);
      if |es| == 1 || !r.o.Val? then r
      else EvalBody(env, es[1..], Declared(es[0], d, env.prog[env.self].view), r.vars, r.w, k)
  }

  function EvalArgs(env: Env, args: seq<Expr>, d: set<Sym>, vars: Vars, w: World, k: nat): (a: ArgsRes)
    requires env.Valid()
    ensures a.Args? ==> |a.vs| == |args|
    ensures a.Stopped? ==> !a.r.o.Val?
    decreases k, 2, args, 0
  {
    if args == [] then Args([], vars, w)
    else
      var last := |args| - 1;
      var r := Eval(env, args[last], d, vars, w, k);
      if !r.o.Val? then Stopped(r)
      else
        var rest := EvalArgs(env, args[..last], Declared(args[last], d, env.prog[env.self].view), r.vars, r.w, k);
        if rest.Stopped? then rest else Args(rest.vs + [r.o.v], rest.vars, rest.w)
  }

  /** `d` are the names declared so far, `vars` those of them that are assigned. */
  function Eval(env: Env, e: Expr, d: set<Sym>, vars: Vars, w: World, k: nat): Res
    requires env.Valid()
    decreases k, 2, e, 1
  {
    var view := env.prog[env.self].view;
    match e
    case Lit(v) => Res(Val(v), vars, w)
    case Name(s) =>
      if s in d then Res(Val(if s in vars then vars[s] else Int(0)), vars, w)
      else if s in w.globals then Res(Checked(w.globals[s]), vars, w)
      else Res(Fail(Failure(false, NameErr)), vars, w)
    case Set(s, x) =>
      var r := Eval(env, x, d, vars, w, k);
      if !r.o.Val? then r
      else Store(r, s)
    case Let(s, x) =>
      var r := Eval(env, x, d, vars, w, k);
      if !r.o.Val? then r
      else if s.reserved then r.(o := Fail(Failure(true, Reserved)))
      else r.(vars := r.vars[s := r.o.v])
    case IfElse(c, t, f) =>
      var r := Eval(env, c, d, vars, w, k);
      var d1 := Declared(c, d, view);
      if !r.o.Val? then r
      else if Truthy(r.o.v) then Eval(env, t, d1, r.vars, r.w, k)
      else Eval(env, f, Declared(t, d1, view), r.vars, r.w, k)
    case Do(es) => EvalBody(env, es, d, vars, w, k)
    case Try(b, h) =>
      var r := Eval(env, b, d, vars, w, k);
      if !r.o.Fail? then r
      else
        var hr := Eval(env, h, Declared(b, d, view), r.vars, r.w.(pending := Unset), k);
        if !hr.o.Val? then hr
        else
          var c := Handle(env, hr.o.v, Payload(r.o.f, r.w), hr.w, k);
          Res(c.o, hr.vars, c.w)
    case ReturnNull => Res(Ret(Null), vars, w)
    case Return(x) =>
      var r := Eval(env, x, d, vars, w, k);
      if r.o.Val? then r.(o := Ret(r.o.v)) else r
    case SelfCall(args) =>
      var a := EvalArgs(env, args, d, vars, w, k);
      if a.Stopped? then a.r
      else if |a.vs| != |env.prog[env.self].params| then Res(ArityError(), a.vars, a.w)
      else
        var c := Invoke(env, a.vs, a.w, k);
        Res(c.o, a.vars, c.w)
    case Call(head, args) =>
      var known := KnownHead(head, view);
      var hr := if known.Fn? then Res(Val(known), vars, w) else Eval(env, head, d, vars, w, k);
      if !hr.o.Val? then hr
      else
        var a := EvalArgs(env, args, DeclaredHead(head, d, view), hr.vars, hr.w, k);
        if a.Stopped? then a.r
        else
          var c := CallValue(env, SelectCall(known, |args|), hr.o.v, a.vs, a.w, k);
          Res(c.o, a.vars, c.w)
  }

  /** A `try` whose body has failed never has an error object for its value: an
      answer of the handler that is one fails again. */
  lemma HandledIsNoError(env: Env, f: Value, err: Value, w: World, k: nat)
    requires env.Valid()
    ensures var c := Handle(env, f, err, w, k); c.o.Val? ==> !c.o.v.ErrObj?
  {
  }

  /** So an identity function for a handler raises an error object again. */
  lemma IdentityRaises(env: Env, id: LamId, s: Sym, code: ErrCode, w: World, k: nat)
    requires env.Valid() && id in env.native && k > 0
    requires env.prog[id].params == [s] && env.prog[id].body == [Name(s)]
    ensures Handle(env, Lam(id), ErrObj(code), w, k) == CallRes(Fail(Failure(true, code)), w)
  {
    var env1, l := env.(self := id), env.prog[id];
    assert Bind([s], [ErrObj(code)]) == map[s := ErrObj(code)];
    assert EvalBody(env1, l.body, {s}, map[s := ErrObj(code)], w, k - 1).o == Val(ErrObj(code));
    assert (set t | t in l.params) == {s};
  }
}
