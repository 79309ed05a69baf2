/** The shunting yard: what reading one token does to the operator stack, the
    value stack, the argument counters and the emitted code. */
module Yard {
  import opened Formula
  import opened ByteCode

  // `vals` is the height of the value stack: its tokens are all of numeric type here.
  datatype State = State(
    opt: seq<Token>, vals: nat, args: seq<int>, code: seq<Instr>, ifElse: int, last: Option<Token>)

  const INITIAL := State([], 0, [1], [], 0, None)

  predicate IsCallback(t: Token) {
    t.TFun? || t.TInfix?
  }

  function ArgCount(t: Token): int
    requires IsCallback(t)
  {
    if t.TFun? then t.f.argc else 1
  }

  function Callback(t: Token): nat
    requires IsCallback(t)
  {
    if t.TFun? then t.f.fn else t.u.fn
  }

  function Precedence(t: Token): Option<int> {
    match t
    case TEnd => Some(-5)
    case TSep => Some(-4)
    case TElse => Some(0)
    case TIf => Some(0)
    case TOp(Or) => Some(1)
    case TOp(And) => Some(2)
    case TOp(Add) => Some(5)
    case TOp(Sub) => Some(5)
    case TOp(Mul) => Some(6)
    case TOp(Div) => Some(6)
    case TOp(Pow) => Some(7)
    case TOp(_) => Some(4)
    case TInfix(u) => Some(u.prec)
    case _ => None
  }

  // Same operator again: only `^` nests to the right. Different operators: precedence alone.
  predicate Yields(top: Token, next: Token)
    requires Precedence(top).Some? && Precedence(next).Some?
  {
    if top == next && next.TOp? then
      next.op != Pow || Precedence(top).value > Precedence(next).value
    else
      Precedence(top).value >= Precedence(next).value
  }

  function Emit(s: State, i: Instr): State {
    s.(code := s.code + [i])
  }

  function ApplyFunc(s: State, argCount: int): Result<State> {
    if s.opt == [] || !IsCallback(s.opt[|s.opt| - 1]) then Ok(s)
    else
      var fun := s.opt[|s.opt| - 1];
      var required := ArgCount(fun);
      var taken := if argCount > 0 then argCount else 0;
      if required >= 0 && argCount > required then Err(TooManyParams)
      else if argCount < required then Err(TooFewParams)
      else if s.vals < taken then Err(StackEmpty)
      else if required == -1 && argCount == 0 then Err(TooFewParams)
      else
        var argc := if required == -1 then -argCount else argCount;
        Ok(Emit(s.(opt := s.opt[..|s.opt| - 1], vals := s.vals - taken + 1), IFun(Callback(fun), argc)))
  }

  // A pending call or sign takes exactly the arguments it asks for, from enough values.
  lemma WrongCount(s: State, argCount: int)
    requires s.opt != [] && IsCallback(s.opt[|s.opt| - 1]) && ArgCount(s.opt[|s.opt| - 1]) >= -1
    ensures var n, r := ArgCount(s.opt[|s.opt| - 1]), ApplyFunc(s, argCount);
            && (n >= 0 && argCount > n ==> r == Err(TooManyParams))
            && (n >= 0 && argCount < n ==> r == Err(TooFewParams))
            && (n >= 0 && argCount == n ==> (r.Ok? <==> n <= s.vals) && (r.Err? ==> r.error == StackEmpty))
            && (n == -1 && argCount == 0 ==> r == Err(TooFewParams))
            && (n == -1 && argCount > 0 ==> (r.Ok? <==> argCount <= s.vals) && (r.Err? ==> r.error == StackEmpty))
  {
  }

  function ApplyBinOprt(s: State): Result<State>
    requires s.opt != [] && s.opt[|s.opt| - 1].TOp?
  {
    if s.vals < 2 then Err(StackEmpty)
    else Ok(Emit(s.(opt := s.opt[..|s.opt| - 1], vals := s.vals - 1), IOp(s.opt[|s.opt| - 1].op)))
  }

  // One pending `? :`: takes the three values, drops the two markers and closes the jump.
  function CloseIfElse(s: State): Result<State>
    requires s.opt != []
  {
    if s.vals < 3 || |s.opt| < 2 then Err(StackEmpty)
    else Ok(Emit(s.(opt := s.opt[..|s.opt| - 2], vals := s.vals - 2), IEndIf))
  }

  function ApplyIfElse(s: State): (r: Result<State>)
    ensures r.Ok? ==> |r.value.opt| <= |s.opt|
    ensures r.Ok? && s.opt != [] && s.opt[|s.opt| - 1] == TElse ==> |r.value.opt| < |s.opt|
    decreases |s.opt|
  {
    if s.opt == [] || s.opt[|s.opt| - 1] != TElse then Ok(s)
    else
      var s' :- CloseIfElse(s);
      ApplyIfElse(s')
  }

  // Applies the topmost pending operator.
  function ApplyTop(s: State): (r: Result<State>)
    requires s.opt != []
    ensures r.Ok? ==> |r.value.opt| < |s.opt|
  {
    match s.opt[|s.opt| - 1]
    case TInfix(_) => ApplyFunc(s, 1)
    case TOp(_) => ApplyBinOprt(s)
    case TElse => ApplyIfElse(s)
    case _ => Err(Internal)
  }

  predicate Halts(opt: seq<Token>) {
    opt == [] || opt[|opt| - 1] in {TOpen, TIf}
  }

  function ApplyRemaining(s: State): (r: Result<State>)
    ensures r.Ok? ==> Halts(r.value.opt)
    decreases |s.opt|
  {
    if Halts(s.opt) then Ok(s)
    else
      var s' :- ApplyTop(s);
      ApplyRemaining(s')
  }

  predicate Shielded(opt: seq<Token>) {
    opt == [] || opt[|opt| - 1] in {TOpen, TElse, TIf}
  }

  // Applies what binds at least as tightly as the operator just read.
  function ApplyTighter(s: State, next: Token): Result<State>
    requires Precedence(next).Some?
    decreases |s.opt|
  {
    if Shielded(s.opt) then Ok(s)
    else
      var top := s.opt[|s.opt| - 1];
      if Precedence(top).None? then Err(Internal)
      else if !Yields(top, next) then Ok(s)
      else if top.TInfix? || top.TOp? then
        var s' :- ApplyTop(s);
        ApplyTighter(s', next)
      else Err(Internal)
  }

  // Adds to the innermost argument counter.
  function Bump(args: seq<int>, n: int): seq<int>
    requires args != []
  {
    args[|args| - 1 := args[|args| - 1] + n]
  }

  function CloseBracket(s: State): Result<State> {
    if s.last == Some(TOpen) && s.args == [] then Err(StackEmpty)
    else
      var s1 := if s.last == Some(TOpen) then s.(args := Bump(s.args, -1)) else s;
      var s2 :- ApplyRemaining(s1);
      if s2.opt == [] || s2.opt[|s2.opt| - 1] != TOpen then Ok(s2)
      else if s2.args == [] then Err(StackEmpty)
      else
        var argCount := s2.args[|s2.args| - 1];
        var s3 := s2.(args := s2.args[..|s2.args| - 1], opt := s2.opt[..|s2.opt| - 1]);
        var top := if s3.opt == [] then None else Some(s3.opt[|s3.opt| - 1]);
        if argCount > 1 && (top.None? || !top.value.TFun?) then Err(UnexpectedArg)
        else if top.Some? && top.value.TFun? then ApplyFunc(s3, argCount)
        else Ok(s3)
  }

  // The switch over token kinds.
  function Dispatch(s: State, t: Token): Result<State> {
    match t
    case TVar(addr) => Ok(Emit(s.(vals := s.vals + 1), IVar(addr)))
    case TVal(v) => Ok(Emit(s.(vals := s.vals + 1), IVal(v)))
    case TElse =>
      if s.ifElse - 1 < 0 then Err(MisplacedColon)
      else
        var s' :- ApplyRemaining(s.(ifElse := s.ifElse - 1));
        Ok(Emit(s'.(opt := s'.opt + [t]), IElse(None)))
    case TSep =>
      if s.args == [] then Err(UnexpectedArgSep)
      else ApplyRemaining(s.(args := Bump(s.args, 1)))
    case TEnd => ApplyRemaining(s)
    case TClose => CloseBracket(s)
    case TIf =>
      var s' :- ApplyTighter(s.(ifElse := s.ifElse + 1), t);
      Ok(Emit(s'.(opt := s'.opt + [t]), IIf(None)))
    case TOp(_) =>
      var s' :- ApplyTighter(s, t);
      Ok(s'.(opt := s'.opt + [t]))
    case TOpen => Ok(s.(args := s.args + [1], opt := s.opt + [t]))
    case TInfix(_) => Ok(s.(opt := s.opt + [t]))
    case TFun(_) => Ok(s.(opt := s.opt + [t]))
  }

  function Read(s: State, t: Token): Result<State> {
    var s' :- Dispatch(s, t);
    Ok(s'.(last := Some(t)))
  }

  function Feed(s: State, ts: seq<Token>): Result<State>
    decreases |ts|
  {
    if ts == [] then Ok(s)
    else
      var s' :- Read(s, ts[0]);
      Feed(s', ts[1..])
  }

  datatype Program = Program(code: seq<Instr>, results: int)

  // The checks made once the end of the formula has been read.
  function Finish(s: State): Result<Program> {
    var code :- Finalized(s.code);
    if s.ifElse > 0 then Err(MissingElseClause)
    else if s.args == [] then Err(StackEmpty)
    else if s.args[|s.args| - 1] == 0 then Err(Internal)
    else if s.vals == 0 then Err(EmptyExpression)
    else Ok(Program(code, s.args[|s.args| - 1]))
  }

  function FeedOn(r: Result<State>, ts: seq<Token>): Result<State> {
    if r.Ok? then Feed(r.value, ts) else r
  }

  lemma {:induction false} FeedConcat(s: State, a: seq<Token>, b: seq<Token>)
    ensures Feed(s, a + b) == FeedOn(Feed(s, a), b)
    decreases |a|
  {
    if a == [] {
      assert a + b == b;
    } else {
      assert (a + b)[1..] == a[1..] + b;
      if Read(s, a[0]).Ok? {
        FeedConcat(Read(s, a[0]).value, a[1..], b);
      }
    }
  }
}
