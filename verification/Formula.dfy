/** The formula language of the embedded parser: values, operators, tokens,
    expression trees and what a tree means.

    Numbers are abstract: an `Algebra` supplies the arithmetic, the magnitude and
    the callbacks, so nothing below depends on complex floating point. */
module Formula {

  // The parser's value type (a complex number in the program).
  type Value(0, ==, !new)

  datatype Error =
    | StackEmpty | Internal
    | MisplacedColon | MissingElseClause
    | TooManyParams | TooFewParams
    | UnexpectedArg | UnexpectedArgSep | EmptyExpression
    | UnexpectedOperator | UnexpectedParens | UnexpectedConditional
    | UnexpectedVal | UnexpectedVar | UnexpectedFun | UnexpectedEof
    | MissingParens | UnassignableToken
    | NameConflict | InvalidName | InvalidVarPtr | InvalidFunPtr | LocaleClash

  datatype Result<+T> = Ok(value: T) | Err(error: Error) {
    predicate IsFailure() {
      Err?
    }

    function PropagateFailure<U>(): Result<U>
      requires Err?
    {
      Err(error)
    }

    function Extract(): T
      requires Ok?
    {
      value
    }
  }

  datatype Option<+T> = None | Some(value: T)

  // The built-in binary operators, assignment excepted.
  datatype BinOp = Le | Ge | Neq | Eq | Lt | Gt | Add | Sub | Mul | Div | Pow | And | Or

  datatype Algebra = Algebra(
    abs: Value -> real,
    truth: bool -> Value,
    equal: (Value, Value) -> bool,
    arith: (BinOp, Value, Value) -> Value,
    call: (nat, seq<Value>) -> Value
  ) {
    // The comparisons and connectives go through the magnitude; `&&` and `||` are strict.
    function Binary(op: BinOp, x: Value, y: Value): Value {
      match op
      case Le => truth(abs(x) <= abs(y))
      case Ge => truth(abs(x) >= abs(y))
      case Lt => truth(abs(x) < abs(y))
      case Gt => truth(abs(x) > abs(y))
      case Eq => truth(equal(x, y))
      case Neq => truth(!equal(x, y))
      case And => truth(abs(x) != 0.0 && abs(y) != 0.0)
      case Or => truth(abs(x) != 0.0 || abs(y) != 0.0)
      case _ => arith(op, x, y)
    }

    predicate IsZero(x: Value) {
      abs(x) == 0.0
    }
  }

  // Comparisons and connectives look at magnitudes, equality and arithmetic at the values.
  lemma BinaryMeans(a: Algebra, f: BinOp, x: Value, y: Value)
    ensures var p, q, r := a.abs(x), a.abs(y), a.Binary(f, x, y);
            && (f == Lt ==> r == a.truth(p < q))
            && (f == Gt ==> r == a.truth(q < p))
            && (f == Le ==> r == a.truth(!(q < p)))
            && (f == Ge ==> r == a.truth(!(p < q)))
            && (f == Eq ==> r == a.truth(a.equal(x, y)))
            && (f == Neq ==> r == a.truth(!a.equal(x, y)))
            && (f == And ==> r == a.truth(!(p == 0.0 || q == 0.0)))
            && (f == Or ==> r == a.truth(!(p == 0.0 && q == 0.0)))
            && (f in {Add, Sub, Mul, Div, Pow} ==> r == a.arith(f, x, y))
  {
  }

  // Variables are cells; a bulk run shifts every address by the run's offset.
  type Memory = nat -> Value

  function Shift(mem: Memory, offset: nat): (m: Memory)
    ensures forall a: nat :: m(a) == mem(a + offset)
  {
    if offset == 0 then mem else (a: nat) => mem(a + offset)
  }

  // A unary infix operator: its callback and its precedence.
  datatype Infix = Infix(fn: nat, prec: int)

  // A function: its callback and its argument count, -1 when variadic.
  datatype Fun = Fun(fn: nat, argc: int)

  // Callbacks exist for zero to ten arguments and for argument vectors.
  predicate Callable(f: Fun) {
    -1 <= f.argc <= 10
  }

  predicate Accepts(f: Fun, n: nat) {
    if f.argc == -1 then n > 0 else n == f.argc
  }

  datatype Token =
    | TVar(addr: nat)
    | TVal(val: Value)
    | TOp(op: BinOp)
    | TInfix(u: Infix)
    | TFun(f: Fun)
    | TIf | TElse
    | TSep
    | TOpen | TClose
    | TEnd

  // Trees keep the spelling of their names and the brackets they are written with.
  datatype Expr =
    | Num(val: Value)
    | Const(name: string, val: Value)
    | Var(name: string, addr: nat)
    | Bin(op: BinOp, l: Expr, r: Expr)
    | Unary(sign: BinOp, u: Infix, e: Expr)
    | Cond(c: Expr, t: Expr, f: Expr)
    | Call(name: string, fun: Fun, args: seq<Expr>)
    | Paren(e: Expr)

  function Meaning(a: Algebra, mem: Memory, e: Expr): Value
    decreases e, 0
  {
    match e
    case Num(v) => v
    case Const(_, v) => v
    case Var(_, addr) => mem(addr)
    case Bin(op, l, r) => a.Binary(op, Meaning(a, mem, l), Meaning(a, mem, r))
    case Unary(_, u, x) => a.call(u.fn, [Meaning(a, mem, x)])
    case Cond(c, t, f) => if a.IsZero(Meaning(a, mem, c)) then Meaning(a, mem, f) else Meaning(a, mem, t)
    case Call(_, f, args) => a.call(f.fn, Meanings(a, mem, args))
    case Paren(x) => Meaning(a, mem, x)
  }

  function Meanings(a: Algebra, mem: Memory, es: seq<Expr>): (vs: seq<Value>)
    ensures |vs| == |es|
    decreases es, 1
  {
    if es == [] then [] else [Meaning(a, mem, es[0])] + Meanings(a, mem, es[1..])
  }

  // The tokens of a tree, brackets exactly where the tree has them.
  function Print(e: Expr): (ts: seq<Token>)
    ensures |ts| > 0 && ts[|ts| - 1] != TOpen && ts[|ts| - 1] != TEnd
    decreases e, 0
  {
    match e
    case Num(v) => [TVal(v)]
    case Const(_, v) => [TVal(v)]
    case Var(_, addr) => [TVar(addr)]
    case Bin(op, l, r) => Print(l) + [TOp(op)] + Print(r)
    case Unary(_, u, x) => [TInfix(u)] + Print(x)
    case Cond(c, t, f) => Print(c) + [TIf] + Print(t) + [TElse] + Print(f)
    case Call(_, f, args) => [TFun(f), TOpen] + PrintList(args) + [TClose]
    case Paren(x) => [TOpen] + Print(x) + [TClose]
  }

  // Comma-separated trees.
  function PrintList(es: seq<Expr>): (ts: seq<Token>)
    ensures es == [] <==> ts == []
    ensures ts != [] ==> ts[|ts| - 1] != TOpen && ts[|ts| - 1] != TEnd
    decreases es, 1
  {
    if es == [] then []
    else if |es| == 1 then Print(es[0])
    else Print(es[0]) + [TSep] + PrintList(es[1..])
  }

  // Every call has as many arguments as its function takes.
  predicate ArityOk(e: Expr)
    decreases e, 0
  {
    match e
    case Num(_) => true
    case Const(_, _) => true
    case Var(_, _) => true
    case Bin(_, l, r) => ArityOk(l) && ArityOk(r)
    case Unary(_, _, x) => ArityOk(x)
    case Cond(c, t, f) => ArityOk(c) && ArityOk(t) && ArityOk(f)
    case Call(_, f, args) => Accepts(f, |args|) && AllArityOk(args)
    case Paren(x) => ArityOk(x)
  }

  predicate AllArityOk(es: seq<Expr>)
    decreases es, 1
  {
    es == [] || (ArityOk(es[0]) && AllArityOk(es[1..]))
  }
}
