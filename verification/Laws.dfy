/** What the forms mean to those who write them, with nothing but the evaluator
    and the host; by `Correctness` the bytecode means the same. */
module Laws {
  import opened Lang
  import opened Reference

  /** `(fn [s] s)`. */
  predicate Identity(env: Env, id: LamId, s: Sym) {
    env.Valid() && id in env.native && env.prog[id].params == [s] && env.prog[id].body == [Name(s)]
  }

  lemma IdentityAnswers(env: Env, id: LamId, s: Sym, v: Value, w: World, k: nat)
    requires Identity(env, id, s) && k > 0
    ensures Invoke(env.(self := id), [v], w, k) == CallRes(Val(v), w)
  {
    ParameterRead(env.(self := id), [v], 0, w, k);
  }

  /** What a handler that is a function of one operand gets to see: the value that
      was raised; without one, the error object of the operation that failed; and
      0 if that has none either. */
  lemma HandlerSees(env: Env, b: Expr, id: LamId, s: Sym, d: set<Sym>, vars: Vars, w: World, k: nat)
    requires Identity(env, id, s) && k > 0
    ensures var r, t := Eval(env, b, d, vars, w, k), Eval(env, Try(b, Lit(Lam(id))), d, vars, w, k);
            if !r.o.Fail? then t == r
            else
              var calm := r.w.(pending := Unset);
              if r.w.pending.Holds? then
                t == Res(if r.w.pending.v.ErrObj? then Fail(Failure(true, r.w.pending.v.code)) else Val(r.w.pending.v), r.vars, calm)
              else if r.o.f.given then t == Res(Fail(Failure(true, r.o.f.code)), r.vars, calm)
              else t == Res(Val(Int(0)), r.vars, calm)
  {
    var r := Eval(env, b, d, vars, w, k);
    if r.o.Fail? {
      var calm := r.w.(pending := Unset);
      IdentityAnswers(env, id, s, Payload(r.o.f, r.w), calm, k);
    }
    hide Invoke, Declared;
  }

  /** `(try (raise v) (fn [s] s))`: `op` is a builtin that leaves `v` pending and fails. */
  lemma RaisedIsCaught(env: Env, op: nat, id: LamId, s: Sym, d: set<Sym>, vars: Vars, w: World, k: nat, v: Value, c: ErrCode, w1: World)
    requires Identity(env, id, s) && k > 0 && !v.ErrObj?
    requires env.host.invoke(ByCallN, Fn(Vary, op), [], w) == (ErrObj(c), w1) && w1.pending == Holds(v)
    ensures Eval(env, Try(Call(Lit(Fn(Vary, op)), []), Lit(Lam(id))), d, vars, w, k) == Res(Val(v), vars, w1.(pending := Unset))
  {
    HandlerSees(env, Call(Lit(Fn(Vary, op)), []), id, s, d, vars, w, k);
  }

  /** A builtin that fails and leaves nothing pending: its error object reaches the handler. */
  lemma ErrorIsCaught(env: Env, op: nat, id: LamId, s: Sym, d: set<Sym>, vars: Vars, w: World, k: nat, c: ErrCode, w1: World)
    requires Identity(env, id, s) && k > 0
    requires env.host.invoke(ByCallN, Fn(Vary, op), [], w) == (ErrObj(c), w1) && w1.pending == Unset
    ensures Eval(env, Try(Call(Lit(Fn(Vary, op)), []), Lit(Lam(id))), d, vars, w, k) == Res(Fail(Failure(true, c)), vars, w1)
  {
    HandlerSees(env, Call(Lit(Fn(Vary, op)), []), id, s, d, vars, w, k);
  }

  /** A name that nothing binds: the handler gets 0. */
  lemma UnboundIsZero(env: Env, x: Sym, id: LamId, s: Sym, d: set<Sym>, vars: Vars, w: World, k: nat)
    requires Identity(env, id, s) && k > 0 && x !in d && x !in w.globals && w.pending == Unset
    ensures Eval(env, Try(Name(x), Lit(Lam(id))), d, vars, w, k) == Res(Val(Int(0)), vars, w)
  {
    HandlerSees(env, Name(x), id, s, d, vars, w, k);
  }

  /** A handler that is a builtin of one operand is asked with just that value. */
  lemma BuiltinHandlerIsAsked(env: Env, x: Sym, f: nat, d: set<Sym>, vars: Vars, w: World, k: nat)
    requires env.Valid() && x !in d && x !in w.globals && w.pending == Unset
    ensures var (v, w1) := env.host.invoke(ByHandler, Fn(Unary, f), [Int(0)], w);
            Eval(env, Try(Name(x), Lit(Fn(Unary, f))), d, vars, w, k) ==
            Res(if v.ErrObj? then Fail(Failure(true, v.code)) else Val(v), vars, w1)
  {
    assert w.(pending := Unset) == w;
  }

  /** A handler that cannot be called is the answer itself. */
  lemma PlainHandlerIsTheAnswer(env: Env, x: Sym, v: Literal, d: set<Sym>, vars: Vars, w: World, k: nat)
    requires env.Valid() && x !in d && x !in w.globals && w.pending == Unset
    requires !v.Lam? && !(v.Fn? && v.kind.Unary?)
    ensures Eval(env, Try(Name(x), Lit(v)), d, vars, w, k) == Res(Val(v), vars, w)
  {
    assert w.(pending := Unset) == w;
  }

  /** Null, false, 0, the null integer and objects without content are no, everything else is yes. */
  lemma Conditions(env: Env, v: Literal, t: Expr, f: Expr, d: set<Sym>, vars: Vars, w: World, k: nat)
    requires env.Valid()
    ensures var no := v == Null || v == Bool(false) || v == Int(0) || v == Int(-0x8000_0000_0000_0000) || (v.Opaque? && !v.truthy);
            Eval(env, IfElse(Lit(v), t, f), d, vars, w, k) ==
            if no then Eval(env, f, Declared(t, d, env.prog[env.self].view), vars, w, k) else Eval(env, t, d, vars, w, k)
  {
  }

  /** Of two expressions the second runs in what the first has left, and gives the value. */
  lemma DoTwo(env: Env, a: Expr, b: Expr, d: set<Sym>, vars: Vars, w: World, k: nat)
    requires env.Valid()
    ensures var r := Eval(env, a, d, vars, w, k);
            Eval(env, Do([a, b]), d, vars, w, k) ==
            if r.o.Val? then Eval(env, b, Declared(a, d, env.prog[env.self].view), r.vars, r.w, k) else r
  {
    var es, r := [a, b], Eval(env, a, d, vars, w, k);
    hide Declared;
    assert es[1..] == [b];
    var d1 := Declared(a, d, env.prog[env.self].view);
    if r.o.Val? {
      assert EvalBody(env, [b], d1, r.vars, r.w, k) == Eval(env, b, d1, r.vars, r.w, k);
    }
    assert Eval(env, Do(es), d, vars, w, k) == EvalBody(env, es, d, vars, w, k);
  }

  lemma LitIs(env: Env, v: Literal, d: set<Sym>, vars: Vars, w: World, k: nat)
    requires env.Valid()
    ensures Eval(env, Lit(v), d, vars, w, k) == Res(Val(v), vars, w)
    ensures Declared(Lit(v), d, env.prog[env.self].view) == d
  {
  }

  /** A global that was set reads as the value it was set to, and no other global has
      changed; a reserved name and the 8193rd name are refused and change nothing. */
  lemma SetThenName(env: Env, s: Sym, v: Literal, d: set<Sym>, vars: Vars, w: World, k: nat)
    requires env.Valid() && s !in d
    ensures var r := Eval(env, Do([Set(s, Lit(v)), Name(s)]), d, vars, w, k);
            if s.reserved then r == Res(Fail(Failure(true, Reserved)), vars, w)
            else if s !in w.globals && |w.globals| >= 8192 then r == Res(Fail(Failure(true, Oom)), vars, w)
            else r == Res(Val(v), vars, w.(globals := w.globals[s := v]))
  {
    DoTwo(env, Set(s, Lit(v)), Name(s), d, vars, w, k);
    LitIs(env, v, d, vars, w, k);
    assert Declared(Set(s, Lit(v)), d, env.prog[env.self].view) == d;
  }

  /** A local reads as the value it was given, hides the global, and leaves it alone. */
  lemma LetThenName(env: Env, s: Sym, v: Literal, d: set<Sym>, vars: Vars, w: World, k: nat)
    requires env.Valid()
    ensures Eval(env, Do([Let(s, Lit(v)), Name(s)]), d, vars, w, k) ==
            if s.reserved then Res(Fail(Failure(true, Reserved)), vars, w) else Res(Val(v), vars[s := v], w)
  {
    DoTwo(env, Let(s, Lit(v)), Name(s), d, vars, w, k);
    LitIs(env, v, d, vars, w, k);
    assert Declared(Let(s, Lit(v)), d, env.prog[env.self].view) == d + {s};
  }

  /** A `let` that is never reached declares its name all the same; it reads as 0. */
  lemma SkippedLetIsZero(env: Env, s: Sym, v: Literal, d: set<Sym>, vars: Vars, w: World, k: nat)
    requires env.Valid() && s !in vars
    ensures Eval(env, Do([IfElse(Lit(Bool(false)), Let(s, Lit(v)), Lit(Null)), Name(s)]), d, vars, w, k) == Res(Val(Int(0)), vars, w)
  {
    var view, skip := env.prog[env.self].view, IfElse(Lit(Bool(false)), Let(s, Lit(v)), Lit(Null));
    DoTwo(env, skip, Name(s), d, vars, w, k);
    LitIs(env, v, d, vars, w, k);
    LitIs(env, Bool(false), d, vars, w, k);
    LitIs(env, Null, d + {s}, vars, w, k);
    assert Declared(Let(s, Lit(v)), d, view) == d + {s};
    assert Declared(skip, d, view) == d + {s};
  }

  /** A global that holds an error object raises it. */
  lemma ErrorGlobalRaises(env: Env, s: Sym, c: ErrCode, d: set<Sym>, vars: Vars, w: World, k: nat)
    requires env.Valid() && s !in d && s in w.globals && w.globals[s] == ErrObj(c)
    ensures Eval(env, Name(s), d, vars, w, k) == Res(Fail(Failure(true, c)), vars, w)
  {
  }

  /** The code behind a `return` does not run, and no `try` around it notices. */
  lemma ReturnLeaves(env: Env, v: Literal, h: Expr, rest: seq<Expr>, d: set<Sym>, vars: Vars, w: World, k: nat)
    requires env.Valid()
    ensures Eval(env, Do([Try(Return(Lit(v)), h)] + rest), d, vars, w, k) == Res(Ret(v), vars, w)
  {
    var es := [Try(Return(Lit(v)), h)] + rest;
    LitIs(env, v, d, vars, w, k);
    assert Eval(env, Return(Lit(v)), d, vars, w, k) == Res(Ret(v), vars, w);
    assert Eval(env, es[0], d, vars, w, k) == Res(Ret(v), vars, w);
    assert EvalBody(env, es, d, vars, w, k) == Res(Ret(v), vars, w);
  }

  // Calls.

  function Literals(vs: seq<Literal>): (es: seq<Expr>)
    ensures |es| == |vs|
  {
    seq(|vs|, i requires 0 <= i < |vs| => Lit(vs[i]))
  }

  function AsValues(vs: seq<Literal>): (r: seq<Value>)
    ensures |r| == |vs|
  {
    seq(|vs|, i requires 0 <= i < |vs| => vs[i])
  }

  /** Operands come in the order in which they are written. */
  lemma {:induction false} LiteralArgs(env: Env, vs: seq<Literal>, d: set<Sym>, vars: Vars, w: World, k: nat)
    requires env.Valid()
    ensures EvalArgs(env, Literals(vs), d, vars, w, k) == Args(AsValues(vs), vars, w)
    decreases |vs|
  {
    if vs == [] {
      assert Literals(vs) == [] && AsValues(vs) == [];
    } else {
      var last := |vs| - 1;
      LiteralArgs(env, vs[..last], d, vars, w, k);
      assert Literals(vs)[..last] == Literals(vs[..last]);
      assert Literals(vs)[last] == Lit(vs[last]);
      assert AsValues(vs) == AsValues(vs[..last]) + [vs[last]];
    }
  }

  lemma {:induction false} BindNames(params: seq<Sym>, vs: seq<Value>, i: nat)
    requires |params| == |vs| && i < |params| && forall j :: i < j < |params| ==> params[j] != params[i]
    ensures params[i] in Bind(params, vs) && Bind(params, vs)[params[i]] == vs[i]
    decreases |params|
  {
    var n := |params| - 1;
    if i < n {
      BindNames(params[..n], vs[..n], i);
    }
  }

  /** A call of a lambda runs it on the operands. */
  lemma LambdaCalled(env: Env, id: LamId, vs: seq<Literal>, d: set<Sym>, vars: Vars, w: World, k: nat)
    requires env.Valid() && id in env.native && |vs| == |env.prog[id].params|
    ensures var c := Invoke(env.(self := id), AsValues(vs), w, k);
            Eval(env, Call(Lit(Lam(id)), Literals(vs)), d, vars, w, k) == Res(c.o, vars, c.w)
  {
    LiteralArgs(env, vs, d, vars, w, k);
    LitIs(env, Lam(id), d, vars, w, k);
    hide Literals, EvalArgs, Declared, Invoke;
  }

  lemma ParameterRead(env: Env, vs: seq<Value>, i: nat, w: World, k: nat)
    requires env.Valid() && k > 0 && i < |vs| == |env.prog[env.self].params|
    requires forall j :: i < j < |vs| ==> env.prog[env.self].params[j] != env.prog[env.self].params[i]
    requires env.prog[env.self].body == [Name(env.prog[env.self].params[i])]
    ensures Invoke(env, vs, w, k) == CallRes(Val(vs[i]), w)
  {
    var l := env.prog[env.self];
    var d, bound := (set s | s in l.params), Bind(l.params, vs);
    BindNames(l.params, vs, i);
    hide Bind;
    assert Eval(env, l.body[0], d, bound, w, k - 1) == Res(Val(vs[i]), bound, w);
    assert EvalBody(env, l.body, d, bound, w, k - 1) == Eval(env, l.body[0], d, bound, w, k - 1);
  }

  /** A lambda that is its `i`-th parameter gives back the `i`-th operand. */
  lemma ParameterIsOperand(env: Env, id: LamId, vs: seq<Literal>, i: nat, d: set<Sym>, vars: Vars, w: World, k: nat)
    requires env.Valid() && id in env.native && k > 0 && i < |vs| == |env.prog[id].params|
    requires forall j :: i < j < |vs| ==> env.prog[id].params[j] != env.prog[id].params[i]
    requires env.prog[id].body == [Name(env.prog[id].params[i])]
    ensures Eval(env, Call(Lit(Lam(id)), Literals(vs)), d, vars, w, k) == Res(Val(vs[i]), vars, w)
  {
    LambdaCalled(env, id, vs, d, vars, w, k);
    ParameterRead(env.(self := id), AsValues(vs), i, w, k);
  }

  /** `self` is the running lambda, from its beginning and with its parameters alone. */
  lemma SelfIsCalled(env: Env, vs: seq<Literal>, d: set<Sym>, vars: Vars, w: World, k: nat)
    requires env.Valid() && |vs| == |env.prog[env.self].params|
    ensures var c := Invoke(env, AsValues(vs), w, k);
            Eval(env, SelfCall(Literals(vs)), d, vars, w, k) == Res(c.o, vars, c.w)
  {
    LiteralArgs(env, vs, d, vars, w, k);
    hide Literals, EvalArgs, Declared, Invoke;
  }

  /** A lambda called with too few or too many operands does not start. */
  lemma WrongCountFails(env: Env, id: LamId, vs: seq<Literal>, d: set<Sym>, vars: Vars, w: World, k: nat)
    requires env.Valid() && id in env.native && |vs| != |env.prog[id].params|
    ensures Eval(env, Call(Lit(Lam(id)), Literals(vs)), d, vars, w, k) == Res(Fail(Failure(true, Arity)), vars, w)
  {
    LiteralArgs(env, vs, d, vars, w, k);
    LitIs(env, Lam(id), d, vars, w, k);
    hide Literals, EvalArgs, Declared;
  }

  /** How a builtin that is known when the call is compiled is asked: by the
      instruction for its kind if the number of operands fits, else by the general
      one, which refuses a wrong number. */
  lemma BuiltinCalled(env: Env, kind: Kind, f: nat, vs: seq<Literal>, d: set<Sym>, vars: Vars, w: World, k: nat)
    requires env.Valid()
    ensures var r := Eval(env, Call(Lit(Fn(kind, f)), Literals(vs)), d, vars, w, k);
            if (kind.Unary? && |vs| != 1) || (kind.Binary? && |vs| != 2) then r == Res(Fail(Failure(true, Arity)), vars, w)
            else
              var op := if kind.Unary? then ByCall1 else if kind.Binary? then ByCall2 else ByCallN;
              var (v, w1) := env.host.invoke(op, Fn(kind, f), AsValues(vs), w);
              r == Res(if v.ErrObj? then Fail(Failure(true, v.code)) else Val(v), vars, w1)
  {
    LiteralArgs(env, vs, d, vars, w, k);
    LitIs(env, Fn(kind, f), d, vars, w, k);
    hide Literals, EvalArgs, Declared;
  }

  /** A head that named a builtin when the call was compiled calls that builtin, whatever
      local or global has the name now; its operands are evaluated right to left. */
  lemma BoundHeadRightToLeft(env: Env, head: Sym, f: nat, s: Sym, a: Literal, b: Literal, d: set<Sym>, vars: Vars, w: World, k: nat)
    requires env.Valid() && head in env.prog[env.self].view && env.prog[env.self].view[head] == Fn(Binary, f)
    requires !s.reserved && s in w.globals
    ensures var (v, w1) := env.host.invoke(ByCall2, Fn(Binary, f), [a, b], w.(globals := w.globals[s := a]));
            Eval(env, Call(Name(head), [Set(s, Lit(a)), Set(s, Lit(b))]), d, vars, w, k) ==
            Res(if v.ErrObj? then Fail(Failure(true, v.code)) else Val(v), vars, w1)
  {
    var args := [Set(s, Lit(a)), Set(s, Lit(b))];
    var wb := w.(globals := w.globals[s := b]);
    var wa := w.(globals := w.globals[s := a]);
    assert wb.globals[s := a] == wa.globals;
    assert args[..1] == [args[0]] && args[..1][..0] == [];
    LitIs(env, a, d, vars, wb, k);
    LitIs(env, b, d, vars, w, k);
    assert Declared(args[0], d, env.prog[env.self].view) == Declared(args[1], d, env.prog[env.self].view) == d;
    assert Eval(env, args[1], d, vars, w, k) == Res(Val(b), vars, wb);
    assert Eval(env, args[0], d, vars, wb, k) == Res(Val(a), vars, wa);
    assert EvalArgs(env, [], d, vars, wa, k) == Args([], vars, wa);
    assert EvalArgs(env, args[..1], d, vars, wb, k) == Args([a], vars, wa);
    assert EvalArgs(env, args, d, vars, w, k) == Args([a, b], vars, wa);
  }
}
