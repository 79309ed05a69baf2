/** The shunting-yard lemma: which operators a printed tree leaves pending, and
    what code reading it appends. */
module Postfix {
  import opened Sequences
  import opened Formula
  import opened ByteCode
  import opened Yard

  // The code of a tree: operands, then operators; jumps still unset.
  function Code(e: Expr): (c: seq<Instr>)
    ensures c != []
    decreases e, 0
  {
    match e
    case Num(v) => [IVal(v)]
    case Const(_, v) => [IVal(v)]
    case Var(_, addr) => [IVar(addr)]
    case Bin(op, l, r) => Code(l) + Code(r) + [IOp(op)]
    case Unary(_, u, x) => Code(x) + [IFun(u.fn, 1)]
    case Cond(c, t, f) => Code(c) + [IIf(None)] + Code(t) + [IElse(None)] + Code(f) + [IEndIf]
    case Call(_, f, args) => ListCode(args) + [CallOf(f, |args|)]
    case Paren(x) => Code(x)
  }

  function ListCode(es: seq<Expr>): seq<Instr>
    decreases es, 1
  {
    if es == [] then [] else Code(es[0]) + ListCode(es[1..])
  }

  function CallOf(f: Fun, n: nat): Instr {
    IFun(f.fn, if f.argc == -1 then -(n as int) else n)
  }

  // The operators on the right spine: still on the stack once the last token has been read.
  function Pending(e: Expr): seq<Token> {
    match e
    case Bin(op, _, r) => [TOp(op)] + Pending(r)
    case Unary(_, u, x) => [TInfix(u)] + Pending(x)
    case Cond(_, _, f) => [TIf, TElse] + Pending(f)
    case _ => []
  }

  // The code appended by then ...
  function Emitted(e: Expr): seq<Instr> {
    match e
    case Bin(_, l, r) => Code(l) + Emitted(r)
    case Unary(_, _, x) => Emitted(x)
    case Cond(c, t, f) => Code(c) + [IIf(None)] + Code(t) + [IElse(None)] + Emitted(f)
    case _ => Code(e)
  }

  // ... and the code that applying the pending operators appends.
  function Owed(e: Expr): seq<Instr> {
    match e
    case Bin(op, _, r) => Owed(r) + [IOp(op)]
    case Unary(_, u, x) => Owed(x) + [IFun(u.fn, 1)]
    case Cond(_, _, f) => Owed(f) + [IEndIf]
    case _ => []
  }

  function PendingVals(e: Expr): (n: nat)
    ensures n >= 1
  {
    match e
    case Bin(_, _, r) => 1 + PendingVals(r)
    case Unary(_, _, x) => PendingVals(x)
    case Cond(_, _, f) => 2 + PendingVals(f)
    case _ => 1
  }

  // Code before, a middle cut in two, and code after.
  lemma Middle(a: seq<Instr>, b: seq<Instr>, c: seq<Instr>, d: seq<Instr>)
    ensures (a + b) + (c + d) == a + (b + c) + d
  {
    Assoc(a + b, c, d);
    Assoc(a, b, c);
  }

  lemma {:induction false} EmittedPlusOwed(e: Expr)
    ensures Emitted(e) + Owed(e) == Code(e)
  {
    match e
    case Bin(op, l, r) =>
      EmittedPlusOwed(r);
      Middle(Code(l), Emitted(r), Owed(r), [IOp(op)]);
    case Unary(_, u, x) =>
      EmittedPlusOwed(x);
      Assoc(Emitted(x), Owed(x), [IFun(u.fn, 1)]);
    case Cond(c, t, f) =>
      EmittedPlusOwed(f);
      Middle(Code(c) + [IIf(None)] + Code(t) + [IElse(None)], Emitted(f), Owed(f), [IEndIf]);
    case _ =>
  }

  // ----- Where brackets are needed -----

  // A token that, read above `top`, leaves it pending.
  predicate Blocks(top: Token, next: Token) {
    top in {TOpen, TIf, TElse} ||
    (Precedence(top).Some? && Precedence(next).Some? && !Yields(top, next))
  }

  // Read above `top`, no operator of the tree's left spine applies `top`.
  predicate Fits(top: Token, e: Expr) {
    match e
    case Bin(op, l, _) => Blocks(top, TOp(op)) && Fits(top, l)
    case Cond(c, _, _) => Blocks(top, TIf) && Fits(top, c)
    case _ => true
  }

  // Reading `next` after the tree applies all the tree left pending.
  predicate Closes(next: Token, e: Expr)
    requires Precedence(next).Some?
  {
    match e
    case Bin(op, _, r) => Yields(TOp(op), next) && Closes(next, r)
    case Unary(_, u, x) => Yields(TInfix(u), next) && Closes(next, x)
    case Cond(_, _, _) => false
    case _ => true
  }

  // Brackets stand wherever the precedence table needs them (and may stand elsewhere).
  predicate Bracketed(e: Expr)
    decreases e
  {
    match e
    case Bin(op, l, r) => Closes(TOp(op), l) && Fits(TOp(op), r) && Bracketed(l) && Bracketed(r)
    case Unary(_, u, x) => Fits(TInfix(u), x) && Bracketed(x)
    case Cond(c, t, f) => Closes(TIf, c) && Bracketed(c) && Bracketed(t) && Bracketed(f)
    case Call(_, f, args) => Callable(f) && forall a | a in args :: Bracketed(a)
    case Paren(x) => Bracketed(x)
    case _ => true
  }

  type Tree = e: Expr | Bracketed(e) witness Call("", Fun(0, 0), [])

  function Top(opt: seq<Token>): Token {
    if opt == [] then TOpen else opt[|opt| - 1]
  }

  lemma FitsInBrackets(top: Token, e: Expr)
    requires top in {TOpen, TIf, TElse}
    ensures Fits(top, e)
  {
  }

  // ----- Applying what a tree left pending -----

  // `s` with the tree's operators still above it, and with them applied.
  function Above(s: State, e: Expr): State {
    s.(opt := s.opt + Pending(e), vals := s.vals + PendingVals(e))
  }

  function Applied(s: State, e: Expr): State {
    s.(vals := s.vals + 1, code := s.code + Owed(e))
  }

  lemma ApplyIfElseStep(s: State)
    requires s.opt != [] && s.opt[|s.opt| - 1] == TElse && CloseIfElse(s).Ok?
    ensures ApplyRemaining(s) == ApplyRemaining(CloseIfElse(s).value)
  {
    var s' := CloseIfElse(s).value;
    assert ApplyTop(s) == ApplyIfElse(s) == ApplyIfElse(s');
    if s'.opt != [] && s'.opt[|s'.opt| - 1] == TElse {
      assert ApplyTop(s') == ApplyIfElse(s');
    } else {
      assert ApplyIfElse(s') == Ok(s');
    }
  }

  // The state in which the right operand of `e` is read.
  function Inside(s: State, e: Expr): State
    requires e.Bin? || e.Unary?
  {
    if e.Bin? then s.(opt := s.opt + [TOp(e.op)], vals := s.vals + 1)
    else s.(opt := s.opt + [TInfix(e.u)])
  }

  function Operand(e: Expr): Expr
    requires e.Bin? || e.Unary?
  {
    if e.Bin? then e.r else e.e
  }

  lemma ApplyOutermost(s: State, e: Expr)
    requires e.Bin? || e.Unary?
    ensures Above(s, e) == Above(Inside(s, e), Operand(e))
    ensures ApplyTop(Applied(Inside(s, e), Operand(e))) == Ok(Applied(s, e))
  {
    var s1 := Inside(s, e);
    var s2 := Applied(s1, Operand(e));
    assert Above(s, e).opt == Above(s1, Operand(e)).opt;
    assert s2.opt[..|s2.opt| - 1] == s.opt;
    assert Emit(s2, Owed(e)[|Owed(e)| - 1]).code == Applied(s, e).code;
  }

  lemma {:induction false} ApplyPending(s: State, e: Expr)
    ensures ApplyRemaining(Above(s, e)) == ApplyRemaining(Applied(s, e))
    decreases e
  {
    if e.Bin? || e.Unary? {
      ApplyOutermost(s, e);
      ApplyPending(Inside(s, e), Operand(e));
    } else if e.Cond? {
      var s1 := s.(opt := s.opt + [TIf, TElse], vals := s.vals + 2);
      assert Above(s, e) == Above(s1, e.f);
      ApplyPending(s1, e.f);
      var s2 := Applied(s1, e.f);
      assert s2.opt[..|s2.opt| - 2] == s.opt;
      assert s2.code + [IEndIf] == s.code + Owed(e);
      ApplyIfElseStep(s2);
    } else {
      assert s.opt + [] == s.opt && s.code + [] == s.code;
    }
  }

  lemma {:induction false} ApplyPendingTighter(s: State, e: Expr, next: Token)
    requires Precedence(next).Some? && Closes(next, e)
    ensures ApplyTighter(Above(s, e), next) == ApplyTighter(Applied(s, e), next)
    decreases e
  {
    if e.Bin? || e.Unary? {
      ApplyOutermost(s, e);
      ApplyPendingTighter(Inside(s, e), Operand(e), next);
    } else {
      assert s.opt + [] == s.opt && s.code + [] == s.code;
    }
  }

  // ----- Reading a printed tree -----

  predicate Ready(s: State, e: Expr) {
    s.ifElse >= 0 && !Top(s.opt).TFun? && Fits(Top(s.opt), e)
  }

  function LastToken(e: Expr): Token {
    Print(e)[|Print(e)| - 1]
  }

  // The state once the last token of the tree has been read ...
  function After(s: State, e: Expr): State {
    State(s.opt + Pending(e), s.vals + PendingVals(e), s.args, s.code + Emitted(e), s.ifElse, Some(LastToken(e)))
  }

  // ... and once its operators have been applied: one more value, the tree's code, nothing else.
  function Done(s: State, e: Expr): State {
    State(s.opt, s.vals + 1, s.args, s.code + Code(e), s.ifElse, Some(LastToken(e)))
  }

  // The same with the counters changed by the token that follows.
  function Counted(s: State, args: seq<int>, ifElse: int): State {
    State(s.opt, s.vals, args, s.code, ifElse, s.last)
  }

  // Before the tree's operators were stacked, its operand code already out.
  function Floor(s: State, e: Expr): State {
    State(s.opt, s.vals, s.args, s.code + Emitted(e), s.ifElse, Some(LastToken(e)))
  }

  lemma AfterIsAbove(s: State, e: Expr)
    ensures After(s, e) == Above(Floor(s, e), e)
    ensures Applied(Floor(s, e), e) == Done(s, e)
  {
    EmittedPlusOwed(e);
    assert s.code + Emitted(e) + Owed(e) == s.code + (Emitted(e) + Owed(e));
  }

  // A token that applies everything (comma, colon, bracket, end) applies the tree and goes on below it.
  lemma FlushTree(s: State, e: Expr, args: seq<int>, ifElse: int)
    ensures ApplyRemaining(Counted(After(s, e), args, ifElse)) == ApplyRemaining(Counted(Done(s, e), args, ifElse))
  {
    hide ApplyRemaining, Pending, PendingVals, Emitted, Owed, Code, Print;
    var s' := Counted(s, args, ifElse);
    AfterIsAbove(s', e);
    ApplyPending(Floor(s', e), e);
  }

  lemma BlockedStays(s: State, next: Token)
    requires Precedence(next).Some? && Blocks(Top(s.opt), next)
    ensures ApplyTighter(s, next) == Ok(s)
  {
  }

  // An operator or `?` that closes the tree applies it and leaves the operators below pending.
  lemma CloseTree(s: State, e: Expr, next: Token, ifElse: int)
    requires (next.TOp? || next.TIf?) && Closes(next, e) && Blocks(Top(s.opt), next)
    ensures ApplyTighter(Counted(After(s, e), s.args, ifElse), next) == Ok(Counted(Done(s, e), s.args, ifElse))
  {
    hide ApplyTighter, Pending, Owed, Emitted, Code, Print, Closes, Blocks, PendingVals;
    var s' := Counted(s, s.args, ifElse);
    AfterIsAbove(s', e);
    ApplyPendingTighter(Floor(s', e), e, next);
    BlockedStays(Done(s', e), next);
  }

  lemma FeedOne(s: State, t: Token)
    ensures Feed(s, [t]) == Read(s, t)
  {
    assert [t][1..] == [];
  }

  lemma FeedFirst(s: State, t: Token, ts: seq<Token>)
    ensures Feed(s, [t] + ts) == FeedOn(Read(s, t), ts)
  {
    assert ([t] + ts)[1..] == ts;
  }

  lemma FeedLast(s: State, ts: seq<Token>, t: Token, s1: State)
    requires Feed(s, ts) == Ok(s1)
    ensures Feed(s, ts + [t]) == Read(s1, t)
  {
    FeedConcat(s, ts, [t]);
    FeedOne(s1, t);
  }

  // Feeding `a`, a token and `b`, given what feeding `a` does.
  lemma FeedThrough(s: State, a: seq<Token>, t: Token, b: seq<Token>, s1: State)
    requires Feed(s, a) == Ok(s1)
    ensures Feed(s, a + [t] + b) == FeedOn(Read(s1, t), b)
  {
    FeedConcat(s, a, [t] + b);
    assert a + [t] + b == a + ([t] + b);
    assert ([t] + b)[1..] == b;
  }

  lemma FeedFails(s: State, a: seq<Token>, b: seq<Token>)
    requires Feed(s, a).Err?
    ensures Feed(s, a + b).Err?
  {
    FeedConcat(s, a, b);
  }

  // The shunting-yard lemma. From any pending operators a printed tree that fits there is read
  // exactly when every call has the right number of arguments, and appends its own code only.
  lemma {:induction false} ReadTree(s: State, e: Tree)
    requires Ready(s, e)
    ensures ArityOk(e) ==> Feed(s, Print(e)) == Ok(After(s, e))
    ensures !ArityOk(e) ==> Feed(s, Print(e)).Err?
    decreases e, 2
  {
    match e
    case Bin(_, _, _) => ReadBin(s, e);
    case Unary(_, _, _) => ReadUnary(s, e);
    case Cond(_, _, _) => ReadCond(s, e);
    case Call(_, _, _) => ReadCall(s, e);
    case Paren(_) => ReadParen(s, e);
    case _ =>
      FeedOne(s, Print(e)[0]);
      assert s.opt + [] == s.opt;
  }

  function LeftRead(s: State, e: Expr): State
    requires e.Bin?
  {
    State(s.opt + [TOp(e.op)], s.vals + 1, s.args, s.code + Code(e.l), s.ifElse, Some(TOp(e.op)))
  }

  lemma ReadOperator(s: State, e: Expr)
    requires e.Bin? && Closes(TOp(e.op), e.l) && Blocks(Top(s.opt), TOp(e.op))
    ensures Read(After(s, e.l), TOp(e.op)) == Ok(LeftRead(s, e))
    ensures After(LeftRead(s, e), e.r) == After(s, e)
  {
    hide ApplyTighter, Closes, Blocks;
    CloseTree(s, e.l, TOp(e.op), s.ifElse);
    assert Counted(After(s, e.l), s.args, s.ifElse) == After(s, e.l);
    assert s.opt + [TOp(e.op)] + Pending(e.r) == s.opt + Pending(e);
    assert s.code + Code(e.l) + Emitted(e.r) == s.code + Emitted(e);
    LastOfConcat(Print(e.l) + [TOp(e.op)], Print(e.r));
  }

  lemma {:induction false} ReadBin(s: State, e: Tree)
    requires e.Bin? && Ready(s, e)
    ensures ArityOk(e) ==> Feed(s, Print(e)) == Ok(After(s, e))
    ensures !ArityOk(e) ==> Feed(s, Print(e)).Err?
    decreases e, 1
  {
    hide Read, Feed, After;
    var op := TOp(e.op);
    ReadTree(s, e.l);
    if !ArityOk(e.l) {
      FeedFails(s, Print(e.l), [op] + Print(e.r));
      Assoc(Print(e.l), [op], Print(e.r));
    } else {
      FeedThrough(s, Print(e.l), op, Print(e.r), After(s, e.l));
      ReadOperator(s, e);
      ReadTree(LeftRead(s, e), e.r);
    }
  }

  function SignRead(s: State, u: Infix): State {
    State(s.opt + [TInfix(u)], s.vals, s.args, s.code, s.ifElse, Some(TInfix(u)))
  }

  lemma SignedRead(s: State, e: Expr)
    requires e.Unary?
    ensures After(SignRead(s, e.u), e.e) == After(s, e)
  {
    assert s.opt + [TInfix(e.u)] + Pending(e.e) == s.opt + Pending(e);
    LastOfConcat([TInfix(e.u)], Print(e.e));
  }

  lemma {:induction false} ReadUnary(s: State, e: Tree)
    requires e.Unary? && Ready(s, e)
    ensures ArityOk(e) ==> Feed(s, Print(e)) == Ok(After(s, e))
    ensures !ArityOk(e) ==> Feed(s, Print(e)).Err?
    decreases e, 1
  {
    hide Feed, ApplyFunc;
    var sign := TInfix(e.u);
    var s1 := SignRead(s, e.u);
    assert Read(s, sign) == Ok(s1);
    FeedFirst(s, sign, Print(e.e));
    ReadTree(s1, e.e);
    SignedRead(s, e);
  }

  function ConditionRead(s: State, e: Expr): State
    requires e.Cond?
  {
    State(s.opt + [TIf], s.vals + 1, s.args, s.code + Code(e.c) + [IIf(None)], s.ifElse + 1, Some(TIf))
  }

  function ThenRead(s: State, e: Expr): State
    requires e.Cond?
  {
    var code := s.code + Code(e.c) + [IIf(None)] + Code(e.t) + [IElse(None)];
    State(s.opt + [TIf] + [TElse], s.vals + 2, s.args, code, s.ifElse, Some(TElse))
  }

  lemma ReadQuestion(s: State, e: Expr)
    requires e.Cond? && Closes(TIf, e.c) && Blocks(Top(s.opt), TIf)
    ensures Read(After(s, e.c), TIf) == Ok(ConditionRead(s, e))
  {
    hide ApplyTighter, Closes, Blocks;
    CloseTree(s, e.c, TIf, s.ifElse + 1);
    assert Counted(After(s, e.c), s.args, s.ifElse + 1) == After(s, e.c).(ifElse := s.ifElse + 1);
  }

  lemma ReadColon(s: State, e: Expr)
    requires e.Cond? && s.ifElse >= 0
    ensures Read(After(ConditionRead(s, e), e.t), TElse) == Ok(ThenRead(s, e))
  {
    hide Code, Print, Emitted, Pending, PendingVals;
    var s2 := ConditionRead(s, e);
    FlushTree(s2, e.t, s.args, s.ifElse);
    assert Counted(After(s2, e.t), s.args, s.ifElse) == After(s2, e.t).(ifElse := s.ifElse);
    assert ApplyRemaining(Counted(Done(s2, e.t), s.args, s.ifElse)) == Ok(Counted(Done(s2, e.t), s.args, s.ifElse));
  }

  lemma ElseBranchRead(s: State, e: Expr)
    requires e.Cond?
    ensures After(ThenRead(s, e), e.f) == After(s, e)
  {
    assert s.opt + [TIf] + [TElse] + Pending(e.f) == s.opt + Pending(e);
    assert ThenRead(s, e).code + Emitted(e.f) == s.code + Emitted(e);
    LastOfConcat(Print(e.c) + [TIf] + Print(e.t) + [TElse], Print(e.f));
  }

  lemma {:induction false} ReadCond(s: State, e: Tree)
    requires e.Cond? && Ready(s, e)
    ensures ArityOk(e) ==> Feed(s, Print(e)) == Ok(After(s, e))
    ensures !ArityOk(e) ==> Feed(s, Print(e)).Err?
    decreases e, 1
  {
    hide Feed, Read, After;
    var tail := Print(e.t) + [TElse] + Print(e.f);
    PrintCond(e);
    ReadTree(s, e.c);
    if !ArityOk(e.c) {
      FeedFails(s, Print(e.c), [TIf] + tail);
    } else {
      FeedThrough(s, Print(e.c), TIf, tail, After(s, e.c));
      ReadQuestion(s, e);
      ReadBranches(s, e);
    }
  }

  lemma PrintCond(e: Expr)
    requires e.Cond?
    ensures var tail := Print(e.t) + [TElse] + Print(e.f);
            Print(e) == Print(e.c) + [TIf] + tail == Print(e.c) + ([TIf] + tail)
  {
    var c, t, f := Print(e.c), Print(e.t), Print(e.f);
    assert Print(e) == c + [TIf] + t + [TElse] + f;
    hide *;
    Assoc(c + [TIf], t, [TElse]);
    Assoc(c + [TIf], t + [TElse], f);
    Assoc(c, [TIf], t + [TElse] + f);
  }

  // From the `?` on.
  lemma {:induction false} ReadBranches(s: State, e: Tree)
    requires e.Cond? && s.ifElse >= 0
    ensures
      var tail := Print(e.t) + [TElse] + Print(e.f);
      && (ArityOk(e.t) && ArityOk(e.f) ==> Feed(ConditionRead(s, e), tail) == Ok(After(s, e)))
      && (!ArityOk(e.t) || !ArityOk(e.f) ==> Feed(ConditionRead(s, e), tail).Err?)
    decreases e, 0
  {
    hide Feed, Read, After;
    var s2 := ConditionRead(s, e);
    FitsInBrackets(TIf, e.t);
    ReadTree(s2, e.t);
    if !ArityOk(e.t) {
      FeedFails(s2, Print(e.t), [TElse] + Print(e.f));
      assert Print(e.t) + [TElse] + Print(e.f) == Print(e.t) + ([TElse] + Print(e.f));
    } else {
      FeedThrough(s2, Print(e.t), TElse, Print(e.f), After(s2, e.t));
      ReadColon(s, e);
      FitsInBrackets(TElse, e.f);
      ReadTree(ThenRead(s, e), e.f);
      ElseBranchRead(s, e);
    }
  }

  // An opening bracket, after whatever the operator stack already holds.
  function Opened(s: State, opt: seq<Token>): State {
    State(s.opt + opt + [TOpen], s.vals, s.args + [1], s.code, s.ifElse, Some(TOpen))
  }

  lemma ParenDone(s: State, e: Expr)
    ensures Done(s, Paren(e)) == State(s.opt, s.vals + 1, s.args, s.code + Code(e), s.ifElse, Some(TClose))
  {
    assert Code(Paren(e)) == Code(e) && Print(Paren(e)) == [TOpen] + Print(e) + [TClose];
    hide Code, Print;
    LastOfConcat([TOpen] + Print(e), [TClose]);
  }

  lemma BracketOfParen(s: State, s1: State, s2: State)
    requires s1.last != Some(TOpen) && ApplyRemaining(s1) == Ok(s2) && !Top(s.opt).TFun?
    requires s2.opt == s.opt + [] + [TOpen] && s2.args == s.args + [1]
    ensures CloseBracket(s1) == Ok(State(s.opt, s2.vals, s.args, s2.code, s2.ifElse, s2.last))
  {
    hide ApplyRemaining, ApplyFunc;
    assert s2.args[..|s2.args| - 1] == s.args && s2.opt[..|s2.opt| - 1] == s.opt;
  }

  lemma ReadClose(s: State, closed: State)
    requires CloseBracket(s) == Ok(closed)
    ensures Read(s, TClose) == Ok(State(closed.opt, closed.vals, closed.args, closed.code, closed.ifElse, Some(TClose)))
  {
    hide CloseBracket;
  }

  // The tree in the bracket is applied, and nothing below the bracket.
  lemma FlushParen(s: State, e: Expr)
    ensures var s1 := Opened(s, []);
            ApplyRemaining(After(s1, e)) == Ok(Done(s1, e)) && After(s1, e).last != Some(TOpen)
  {
    hide Print, Code, Emitted, Pending, PendingVals;
    var s1 := Opened(s, []);
    FlushTree(s1, e, s1.args, s.ifElse);
    assert Counted(After(s1, e), s1.args, s.ifElse) == After(s1, e);
    assert Counted(Done(s1, e), s1.args, s.ifElse) == Done(s1, e);
  }

  lemma CloseParen(s: State, e: Expr)
    requires !Top(s.opt).TFun?
    ensures Read(After(Opened(s, []), e), TClose) == Ok(Done(s, Paren(e)))
  {
    hide Read, CloseBracket, ApplyRemaining, After, Print, Code, Top;
    var s1 := Opened(s, []);
    FlushParen(s, e);
    BracketOfParen(s, After(s1, e), Done(s1, e));
    ReadClose(After(s1, e), State(s.opt, Done(s1, e).vals, s.args, Done(s1, e).code, s.ifElse, Done(s1, e).last));
    ParenDone(s, e);
  }

  // One token, given what reading it does.
  lemma FeedCons(s: State, t: Token, ts: seq<Token>, s1: State)
    requires Read(s, t) == Ok(s1)
    ensures Feed(s, [t] + ts) == Feed(s1, ts)
  {
    FeedFirst(s, t, ts);
  }

  lemma PrintParen(e: Expr)
    requires e.Paren?
    ensures Print(e) == [TOpen] + (Print(e.e) + [TClose])
  {
    assert Print(e) == [TOpen] + Print(e.e) + [TClose];
    hide Print;
    Assoc([TOpen], Print(e.e), [TClose]);
  }

  lemma OpenParen(s: State, e: Expr)
    requires e.Paren?
    ensures Read(s, TOpen) == Ok(Opened(s, [])) && After(s, e) == Done(s, e)
  {
    assert s.opt + [] == s.opt;
  }

  lemma {:induction false} ReadParen(s: State, e: Tree)
    requires e.Paren? && Ready(s, e)
    ensures ArityOk(e) ==> Feed(s, Print(e)) == Ok(After(s, e))
    ensures !ArityOk(e) ==> Feed(s, Print(e)).Err?
    decreases e, 1
  {
    var s1 := Opened(s, []);
    assert ArityOk(e) == ArityOk(e.e) && e == Paren(e.e);
    FitsInBrackets(TOpen, e.e);
    assert Ready(s1, e.e) && !Top(s.opt).TFun?;
    hide *;
    OpenParen(s, e);
    PrintParen(e);
    FeedCons(s, TOpen, Print(e.e) + [TClose], s1);
    ReadTree(s1, e.e);
    if !ArityOk(e.e) {
      FeedFails(s1, Print(e.e), [TClose]);
    } else {
      FeedLast(s1, Print(e.e), TClose, After(s1, e.e));
      CloseParen(s, e.e);
    }
  }

  // `s2` is `s` after a comma list: its trees are counted, and applying what the last one left
  // pending gives one value and one piece of code for each.
  predicate ListRead(s: State, es: seq<Expr>, s2: State)
    requires s.args != [] && es != []
  {
    && s2.last != Some(TOpen)
    && s2.args == Bump(s.args, |es| - 1)
    && s2.ifElse == s.ifElse
    && ApplyRemaining(s2) == Ok(State(s.opt, s.vals + |es|, s2.args, s.code + ListCode(es), s.ifElse, s2.last))
  }

  function CommaRead(s: State, e: Expr): (s': State)
    requires s.args != []
    ensures s'.args != [] && s'.ifElse == s.ifElse && s'.opt == s.opt
  {
    State(s.opt, s.vals + 1, Bump(s.args, 1), s.code + Code(e), s.ifElse, Some(TSep))
  }

  lemma ReadComma(s: State, e: Expr)
    requires s.args != [] && Top(s.opt) == TOpen
    ensures Read(After(s, e), TSep) == Ok(CommaRead(s, e))
  {
    FlushTree(s, e, Bump(s.args, 1), s.ifElse);
    var s' := Counted(Done(s, e), Bump(s.args, 1), s.ifElse);
    assert Counted(After(s, e), Bump(s.args, 1), s.ifElse) == After(s, e).(args := Bump(s.args, 1));
    assert ApplyRemaining(s') == Ok(s');
  }

  lemma LastInList(s: State, es: seq<Expr>)
    requires |es| == 1 && s.args != [] && Top(s.opt) == TOpen
    ensures ListRead(s, es, After(s, es[0]))
  {
    var e := es[0];
    FlushTree(s, e, s.args, s.ifElse);
    assert Counted(After(s, e), s.args, s.ifElse) == After(s, e);
    assert Counted(Done(s, e), s.args, s.ifElse) == Done(s, e);
    assert ApplyRemaining(Done(s, e)) == Ok(Done(s, e));
    assert ListCode(es) == Code(e) + [] == Code(e);
  }

  lemma ListReadOn(s: State, es: seq<Expr>, s2: State)
    requires |es| > 1 && s.args != []
    requires ListRead(CommaRead(s, es[0]), es[1..], s2)
    ensures ListRead(s, es, s2)
  {
    assert Bump(Bump(s.args, 1), |es[1..]| - 1) == Bump(s.args, |es| - 1);
    assert s.code + Code(es[0]) + ListCode(es[1..]) == s.code + ListCode(es);
  }

  lemma OneInList(es: seq<Expr>)
    requires |es| == 1
    ensures PrintList(es) == Print(es[0]) && AllArityOk(es) == ArityOk(es[0])
  {
    assert es[1..] == [];
  }

  lemma {:induction false} ReadList(s: State, es: seq<Tree>)
    requires es != [] && s.args != [] && s.ifElse >= 0 && Top(s.opt) == TOpen
    ensures AllArityOk(es) ==> Feed(s, PrintList(es)).Ok? && ListRead(s, es, Feed(s, PrintList(es)).value)
    ensures !AllArityOk(es) ==> Feed(s, PrintList(es)).Err?
    decreases es, 3
  {
    hide Read, Feed, After, ListRead, ApplyRemaining, Print, Bump, ArityOk;
    var e: Tree, rest := es[0], es[1..];
    FitsInBrackets(TOpen, e);
    ReadTree(s, e);
    if |es| == 1 {
      LastInList(s, es);
      OneInList(es);
    } else if !ArityOk(e) {
      FeedFails(s, Print(e), [TSep] + PrintList(rest));
      assert PrintList(es) == Print(e) + ([TSep] + PrintList(rest));
    } else {
      FeedThrough(s, Print(e), TSep, PrintList(rest), After(s, e));
      ReadComma(s, e);
      ReadList(CommaRead(s, e), rest);
      if AllArityOk(rest) {
        ListReadOn(s, es, Feed(CommaRead(s, e), PrintList(rest)).value);
      }
    }
  }

  // The arguments of the call are read and applied; the function itself is still pending.
  function ArgsRead(s: State, e: Expr, last: Option<Token>): State
    requires e.Call?
  {
    State(s.opt + [TFun(e.fun)], s.vals + |e.args|, s.args, s.code + ListCode(e.args), s.ifElse, last)
  }

  lemma ApplyCall(s: State, e: Expr, last: Option<Token>)
    requires e.Call? && Callable(e.fun)
    ensures
      var r := ApplyFunc(ArgsRead(s, e, last), |e.args|);
      && (Accepts(e.fun, |e.args|) ==> r == Ok(State(s.opt, s.vals + 1, s.args, s.code + Code(e), s.ifElse, last)))
      && (!Accepts(e.fun, |e.args|) ==> r.Err?)
  {
    hide ListCode;
    var s3 := ArgsRead(s, e, last);
    assert s3.opt[..|s3.opt| - 1] == s.opt;
    assert s3.code + [CallOf(e.fun, |e.args|)] == s.code + Code(e);
  }

  lemma BracketOfCall(s: State, e: Expr, s2: State)
    requires e.Call?
    requires if e.args == [] then s2 == Opened(s, [TFun(e.fun)]) else ListRead(Opened(s, [TFun(e.fun)]), e.args, s2)
    ensures CloseBracket(s2) == ApplyFunc(ArgsRead(s, e, s2.last), |e.args|)
  {
    hide ListCode, ApplyFunc;
    var s1, n := Opened(s, [TFun(e.fun)]), |e.args|;
    var counted := if e.args == [] then Counted(s2, Bump(s2.args, -1), s2.ifElse) else s2;
    var flushed := State(s1.opt, s.vals + n, s.args + [n], s.code + ListCode(e.args), s.ifElse, s2.last);
    if e.args == [] {
      NoCode(s, e.args);
      assert counted == flushed;
      assert s2.(args := Bump(s2.args, -1)) == counted;
    } else {
      assert s2.args == s.args + [n];
    }
    assert ApplyRemaining(counted) == Ok(flushed);
    assert flushed.opt[..|flushed.opt| - 1] == s.opt + [TFun(e.fun)] && flushed.args[..|flushed.args| - 1] == s.args;
  }

  lemma NoCode(s: State, es: seq<Expr>)
    requires es == []
    ensures s.code + ListCode(es) == s.code
  {
  }

  // The closing bracket of a call, its arguments read.
  lemma CloseCall(s: State, e: Expr, s2: State)
    requires e.Call? && Callable(e.fun)
    requires if e.args == [] then s2 == Opened(s, [TFun(e.fun)]) else ListRead(Opened(s, [TFun(e.fun)]), e.args, s2)
    ensures Accepts(e.fun, |e.args|) ==> Read(s2, TClose) == Ok(Done(s, e))
    ensures !Accepts(e.fun, |e.args|) ==> Read(s2, TClose).Err?
  {
    hide ListCode, ApplyFunc, Code, CloseBracket, ListRead, ArgsRead, Accepts;
    BracketOfCall(s, e, s2);
    ApplyCall(s, e, s2.last);
    LastOfConcat([TFun(e.fun), TOpen] + PrintList(e.args), [TClose]);
  }

  lemma PrintCall(e: Expr)
    requires e.Call?
    ensures Print(e) == [TFun(e.fun)] + ([TOpen] + (PrintList(e.args) + [TClose]))
  {
    var fun, args := TFun(e.fun), PrintList(e.args);
    assert Print(e) == [fun, TOpen] + args + [TClose];
    hide *;
    assert [fun, TOpen] == [fun] + [TOpen];
    Assoc([fun] + [TOpen], args, [TClose]);
    Assoc([fun], [TOpen], args + [TClose]);
  }

  lemma {:induction false} ReadCall(s: State, e: Tree)
    requires e.Call? && Ready(s, e)
    ensures ArityOk(e) ==> Feed(s, Print(e)) == Ok(After(s, e))
    ensures !ArityOk(e) ==> Feed(s, Print(e)).Err?
    decreases e, 1
  {
    var fun, args := TFun(e.fun), PrintList(e.args);
    var s0 := State(s.opt + [fun], s.vals, s.args, s.code, s.ifElse, Some(fun));
    var s1 := Opened(s, [fun]);
    assert Read(s, fun) == Ok(s0) && Read(s0, TOpen) == Ok(s1);
    assert After(s, e) == Done(s, e) by { assert s.opt + [] == s.opt; }
    assert ArityOk(e) == (Accepts(e.fun, |e.args|) && AllArityOk(e.args));
    assert Callable(e.fun) && s1.ifElse >= 0 && Top(s1.opt) == TOpen;
    assert e.args == [] ==> args == [] && AllArityOk(e.args);
    NothingFed(s1);
    hide Read, Feed, After, Done, Print, PrintList, ArityOk, AllArityOk, Accepts, Fits;
    PrintCall(e);
    FeedCons(s, fun, [TOpen] + (args + [TClose]), s0);
    FeedCons(s0, TOpen, args + [TClose], s1);
    if e.args == [] {
      FeedLast(s1, args, TClose, s1);
      CloseCall(s, e, s1);
    } else {
      ReadList(s1, e.args);
      if !AllArityOk(e.args) {
        FeedFails(s1, args, [TClose]);
      } else {
        var s2 := Feed(s1, args).value;
        FeedLast(s1, args, TClose, s2);
        CloseCall(s, e, s2);
      }
    }
  }

  lemma NothingFed(s: State)
    ensures Feed(s, []) == Ok(s)
  {
  }
}
