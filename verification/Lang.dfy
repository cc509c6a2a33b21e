/** Values, expressions and lambdas of the Rayfall fragment that `ray_compile`
    lowers to bytecode without falling back to the tree walker. */
module Lang {

  /** An interned name.  `reserved` is the verdict of `ray_sym_is_reserved`,
      which depends on the spelling alone. */
  datatype Sym = Sym(id: nat, reserved: bool)

  type LamId = nat

  /** How many operands a builtin is declared with. */
  datatype Kind = Unary | Binary | Vary

  datatype ErrCode = Domain | Limit | NameErr | Arity | Reserved | Oom | HostError(code: int)

  /** `ErrObj` is an error object (`RAY_IS_ERR`): a value like any other until it
      is the result of an operation that may fail. `Opaque` stands for every
      other heap object the executor only moves around; its identity plays the
      part of the pointer, and `truthy` is what `is_truthy` finds in it. */
  datatype Value =
    | Null
    | Int(i: int)
    | Bool(b: bool)
    | Symbol(s: Sym, quoted: bool)
    | Lam(id: LamId)
    | Fn(kind: Kind, fnId: nat)
    | ErrObj(code: ErrCode)
    | Opaque(objId: nat, truthy: bool)

  const NULL_I64: int := -0x8000_0000_0000_0000

  predicate Truthy(v: Value) {
    match v
    case Null => false
    case Bool(b) => b
    case Int(i) => i != 0 && i != NULL_I64
    case Opaque(_, truthy) => truthy
    case _ => true
  }

  /** What stands for itself in a parsed form: anything but a bare name, and no error object. */
  type Literal = v: Value | !v.ErrObj? && (v.Symbol? ==> v.quoted) witness Null

  /** The parsed forms.  A call keeps its head as an expression: the compiler
      decides from `View` whether the head is a builtin known at compile time.
      An `if` without an else branch is one whose else branch is the constant 0. */
  datatype Expr =
    | Lit(v: Literal)
    | Name(s: Sym)
    | Set(s: Sym, e: Expr)
    | Let(s: Sym, e: Expr)
    | IfElse(c: Expr, t: Expr, f: Expr)
    | Do(es: seq<Expr>)
    | Try(body: Expr, handler: Expr)
    | ReturnNull
    | Return(e: Expr)
    | SelfCall(args: seq<Expr>)
    | Call(head: Expr, args: seq<Expr>)

  /** The global bindings `ray_env_get` reports while a lambda is being compiled. */
  type View = map<Sym, Value>

  datatype Lambda = Lambda(params: seq<Sym>, body: seq<Expr>, view: View)

  type Program = map<LamId, Lambda>

  /** The value a call head is known to denote at compile time, if any. */
  function KnownHead(head: Expr, view: View): Value {
    match head
    case Lit(v) => if v.Fn? then v else Null
    case Name(s) => if s in view && view[s].Fn? then view[s] else Null
    case _ => Null
  }

  /** The instruction a call uses; it also selects the path by which a builtin
      receives its operands, so the host may answer each one differently. */
  datatype CallOp = ByCall1 | ByCall2 | ByCallN | ByCallF | ByHandler

  function SelectCall(known: Value, argc: nat): CallOp {
    if known.Fn? && known.kind.Unary? && argc == 1 then ByCall1
    else if known.Fn? && known.kind.Binary? && argc == 2 then ByCall2
    else if known.Fn? && known.kind.Vary? then ByCallN
    else ByCallF
  }

  /** What the executor shares with the rest of the process.  `rest` numbers the
      states of everything that builtins may read and change but the executor
      never looks at: files, the random generator. */
  datatype World = World(globals: map<Sym, Value>, pending: Slot, rest: nat)

  /** A stack cell or local slot; `Unset` is the C null pointer. */
  datatype Slot = Unset | Holds(v: Value)

  /** Builtins, and lambdas that did not compile, run outside the executor:
      they return a value, which is an error object if they fail, and may rebind
      globals, leave a pending raise value and change the rest of the process. */
  datatype Host = Host(invoke: (CallOp, Value, seq<Value>, World) -> (Value, World))

  /** An error on its way out: its code, and whether the failing step `given` an
      error object of its own or leaves it to `vm_exec` to report one. */
  datatype Failure = Failure(given: bool, code: ErrCode)

  function FinalError(f: Failure): Value {
    ErrObj(f.code)
  }

  /** What a `try` handler is given: the pending raise value, else the error
      object, else 0. */
  function Payload(f: Failure, w: World): Value {
    if w.pending.Holds? then w.pending.v
    else if f.given then ErrObj(f.code)
    else Int(0)
  }

  /** The globals `ray_env_set` has room for. */
  const ENV_CAP: nat := 8192

  datatype Binding = Rebound(globals: map<Sym, Value>) | NotBound(code: ErrCode)

  /** `ray_env_set`: reserved names are refused, and so is a new name when the table is full. */
  function SetGlobal(globals: map<Sym, Value>, s: Sym, v: Value): Binding {
    if s.reserved then NotBound(Reserved)
    else if s !in globals && |globals| >= ENV_CAP then NotBound(Oom)
    else Rebound(globals[s := v])
  }

  /** Every `self` call passes as many operands as the lambda has parameters.
      The executor relies on this and nothing checks it. */
  predicate SelfArity(e: Expr, n: nat) {
    match e
    case Set(_, x) => SelfArity(x, n)
    case Let(_, x) => SelfArity(x, n)
    case IfElse(c, t, f) => SelfArity(c, n) && SelfArity(t, n) && SelfArity(f, n)
    case Do(es) => SelfArityAll(es, n)
    case Try(b, h) => SelfArity(b, n) && SelfArity(h, n)
    case Return(x) => SelfArity(x, n)
    case SelfCall(args) => |args| == n && SelfArityAll(args, n)
    case Call(h, args) => SelfArity(h, n) && SelfArityAll(args, n)
    case _ => true
  }

  predicate SelfArityAll(es: seq<Expr>, n: nat) {
    forall i :: 0 <= i < |es| ==> SelfArity(es[i], n)
  }

  predicate WellFormed(prog: Program) {
    forall id :: id in prog ==> SelfArityAll(prog[id].body, |prog[id].params|)
  }
}
