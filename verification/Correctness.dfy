/** From a spelled formula to its value: reading, compiling, finalising and
    running, and the brackets the precedence table asks for. */
module Correctness {
  import opened Formula
  import opened ByteCode
  import opened Yard
  import opened Postfix
  import opened Machine
  import opened Compiler
  import opened TokenReader

  // The compile loop: read a token, dispatch it, stop at the end marker.
  function CreateFrom(d: Defs, c: Cursor, s: State): Result<Program>
    decreases |c.rest|
  {
    var r :- Recognise(d, c);
    var s' :- Read(s, r.token);
    if c.rest == [] then Finish(s') else CreateFrom(d, Advance(c, r), s')
  }

  function CreateRPN(d: Defs, formula: seq<Lexeme>): Result<Program> {
    CreateFrom(d, Start(formula), INITIAL)
  }

  lemma {:induction false} CreateFromTokens(d: Defs, c: Cursor, s: State)
    requires ReadAll(d, c).Ok?
    ensures CreateFrom(d, c, s) ==
            if Feed(s, ReadAll(d, c).value).Ok? then Finish(Feed(s, ReadAll(d, c).value).value)
            else Err(Feed(s, ReadAll(d, c).value).error)
    decreases |c.rest|
  {
    var r := Recognise(d, c).value;
    if c.rest == [] {
      FeedOne(s, r.token);
    } else {
      FeedFirst(s, r.token, ReadAll(d, Advance(c, r)).value);
      if Read(s, r.token).Ok? {
        CreateFromTokens(d, Advance(c, r), Read(s, r.token).value);
      }
    }
  }

  // A spelled comma list is accepted exactly when every call has the right number of arguments.
  lemma FormulaCompiles(d: Defs, es: seq<Tree>)
    requires es != [] && AllAgree(d, es)
    ensures CreateRPN(d, SpellList(es)).Ok? <==> AllArityOk(es)
    ensures AllArityOk(es) ==> CreateRPN(d, SpellList(es)) == Ok(Program(LinkedList(es) + [IEnd], |es|))
  {
    hide Feed, Finish, ReadAll, CreateFrom, PrintList, SpellList, LinkedList, AllAgree;
    ReadsFormula(d, es);
    CreateFromTokens(d, Start(SpellList(es)), INITIAL);
    CompileList(es);
  }

  // Compiler correctness: the accepted formula's run leaves the trees' meanings in order, and on
  // every branch path its stack stays within the static positions.
  lemma CompiledFormula(d: Defs, es: seq<Tree>, a: Algebra, mem: Memory)
    requires es != [] && AllAgree(d, es) && AllArityOk(es)
    ensures CreateRPN(d, SpellList(es)).Ok?
    ensures
      var p := CreateRPN(d, SpellList(es)).value;
      && p.results == |es|
      && Run(a, mem, Config(p.code, [])) == Ok(Meanings(a, mem, es))
      && HeightsFit(a, mem, p.code, Config(p.code, []))
  {
    hide Run, HeightsFit, SpellList, LinkedList, AllAgree;
    FormulaCompiles(d, es);
    RunList(a, mem, es);
    ListFits(a, mem, es);
  }

  // Bracketed trees with the same tokens have the same code, hence the same meanings.
  lemma Unambiguous(es1: seq<Tree>, es2: seq<Tree>, a: Algebra, mem: Memory)
    requires es1 != [] && es2 != [] && PrintList(es1) == PrintList(es2) && AllArityOk(es1)
    ensures AllArityOk(es2) && Meanings(a, mem, es1) == Meanings(a, mem, es2)
  {
    CompileList(es1);
    CompileList(es2);
    RunList(a, mem, es1);
    RunList(a, mem, es2);
  }

  // ----- Brackets only where they are needed -----

  function Guard(needed: bool, e: Expr): Expr {
    if needed then Paren(e) else e
  }

  // Puts brackets round an operand only if the precedence table, or a second sign, asks for them.
  function Bracket(e: Expr): Expr
    decreases e, 0
  {
    match e
    case Bin(op, l, r) =>
      var l', r' := Bracket(l), Bracket(r);
      Bin(op, Guard(!Closes(TOp(op), l'), l'), Guard(!Fits(TOp(op), r'), r'))
    case Unary(sign, u, x) =>
      var x' := Bracket(x);
      Unary(sign, u, Guard(!Fits(TInfix(u), x') || StartsSigned(x'), x'))
    case Cond(c, t, f) =>
      var c' := Bracket(c);
      Cond(Guard(!Closes(TIf, c'), c'), Bracket(t), Bracket(f))
    case Call(n, f, args) => Call(n, f, BracketList(args))
    case Paren(x) => Paren(Bracket(x))
    case _ => e
  }

  function BracketList(es: seq<Expr>): (bs: seq<Expr>)
    ensures |bs| == |es|
    decreases es, 1
  {
    if es == [] then [] else [Bracket(es[0])] + BracketList(es[1..])
  }

  // What a tree names, apart from how it is bracketed.
  predicate Named(d: Defs, e: Expr)
    decreases e, 0
  {
    match e
    case Num(_) => true
    case Const(n, v) => n in d.consts && d.consts[n] == v
    case Var(n, addr) => n in d.vars && n !in d.consts && d.vars[n] == addr
    case Bin(op, l, r) => d.builtin && Named(d, l) && Named(d, r)
    case Unary(sign, u, x) => sign in d.infix && d.infix[sign] == u && Named(d, x)
    case Cond(c, t, f) => Named(d, c) && Named(d, t) && Named(d, f)
    case Call(n, f, args) => n in d.funs && d.funs[n] == f && Callable(f) && AllNamed(d, args)
    case Paren(x) => Named(d, x)
  }

  predicate AllNamed(d: Defs, es: seq<Expr>)
    decreases es, 1
  {
    es == [] || (Named(d, es[0]) && AllNamed(d, es[1..]))
  }

  lemma GuardsHold(top: Token, next: Token, e: Expr)
    requires Precedence(next).Some?
    ensures Closes(next, Guard(!Closes(next, e), e)) && Fits(top, Guard(!Fits(top, e), e))
    ensures Fits(top, Guard(!Fits(top, e) || StartsSigned(e), e))
    ensures !StartsSigned(Guard(!Fits(top, e) || StartsSigned(e), e))
  {
  }

  lemma GuardKeeps(needed: bool, e: Expr, d: Defs, a: Algebra, mem: Memory)
    ensures Bracketed(Guard(needed, e)) == Bracketed(e) && Agrees(d, Guard(needed, e)) == Agrees(d, e)
    ensures ArityOk(Guard(needed, e)) == ArityOk(e) && Meaning(a, mem, Guard(needed, e)) == Meaning(a, mem, e)
  {
  }

  lemma BracketsBin(d: Defs, e: Expr, a: Algebra, mem: Memory)
    requires e.Bin? && Named(d, e)
    requires Bracketed(Bracket(e.l)) && Bracketed(Bracket(e.r)) && Agrees(d, Bracket(e.l)) && Agrees(d, Bracket(e.r))
    requires ArityOk(Bracket(e.l)) == ArityOk(e.l) && ArityOk(Bracket(e.r)) == ArityOk(e.r)
    requires Meaning(a, mem, Bracket(e.l)) == Meaning(a, mem, e.l)
    requires Meaning(a, mem, Bracket(e.r)) == Meaning(a, mem, e.r)
    ensures Bracketed(Bracket(e)) && Agrees(d, Bracket(e))
    ensures ArityOk(Bracket(e)) == ArityOk(e) && Meaning(a, mem, Bracket(e)) == Meaning(a, mem, e)
  {
    hide Closes, Fits, StartsSigned, Guard;
    var op, l, r := TOp(e.op), Bracket(e.l), Bracket(e.r);
    GuardsHold(TOpen, op, l);
    GuardsHold(op, TEnd, r);
    GuardKeeps(!Closes(op, l), l, d, a, mem);
    GuardKeeps(!Fits(op, r), r, d, a, mem);
  }

  // Bracketing gives a tree the reader and the yard take as it is, of the same arities and meaning.
  lemma {:induction false} BracketWorks(d: Defs, e: Expr, a: Algebra, mem: Memory)
    requires Named(d, e)
    ensures Bracketed(Bracket(e)) && Agrees(d, Bracket(e))
    ensures ArityOk(Bracket(e)) == ArityOk(e) && Meaning(a, mem, Bracket(e)) == Meaning(a, mem, e)
    decreases e, 0
  {
    hide Closes, Fits, StartsSigned, Guard;
    match e
    case Bin(_, l, r) =>
      BracketWorks(d, l, a, mem);
      BracketWorks(d, r, a, mem);
      BracketsBin(d, e, a, mem);
    case Unary(sign, u, x) =>
      BracketWorks(d, x, a, mem);
      GuardsHold(TInfix(u), TEnd, Bracket(x));
      GuardKeeps(!Fits(TInfix(u), Bracket(x)) || StartsSigned(Bracket(x)), Bracket(x), d, a, mem);
    case Cond(c, t, f) =>
      BracketWorks(d, c, a, mem);
      BracketWorks(d, t, a, mem);
      BracketWorks(d, f, a, mem);
      GuardsHold(TOpen, TIf, Bracket(c));
      GuardKeeps(!Closes(TIf, Bracket(c)), Bracket(c), d, a, mem);
    case Call(n, f, args) => BracketListWorks(d, args, a, mem);
    case Paren(x) => BracketWorks(d, x, a, mem);
    case _ =>
  }

  lemma {:induction false} BracketListWorks(d: Defs, es: seq<Expr>, a: Algebra, mem: Memory)
    requires AllNamed(d, es)
    ensures forall b | b in BracketList(es) :: Bracketed(b) && Agrees(d, b)
    ensures AllArityOk(BracketList(es)) == AllArityOk(es)
    ensures Meanings(a, mem, BracketList(es)) == Meanings(a, mem, es)
    decreases es, 1
  {
    if es != [] {
      BracketWorks(d, es[0], a, mem);
      BracketListWorks(d, es[1..], a, mem);
      assert BracketList(es)[1..] == BracketList(es[1..]);
    }
  }

  // A tree that needs no more brackets gets none.
  lemma {:induction false} BracketKeeps(d: Defs, e: Tree)
    requires Agrees(d, e)
    ensures Bracket(e) == e
    decreases e, 0
  {
    match e
    case Bin(_, l, r) => BracketKeeps(d, l); BracketKeeps(d, r);
    case Unary(_, _, x) => BracketKeeps(d, x);
    case Cond(c, t, f) => BracketKeeps(d, c); BracketKeeps(d, t); BracketKeeps(d, f);
    case Call(_, _, args) => BracketListKeeps(d, args);
    case Paren(x) => BracketKeeps(d, x);
    case _ =>
  }

  lemma {:induction false} BracketListKeeps(d: Defs, es: seq<Tree>)
    requires AllAgree(d, es)
    ensures BracketList(es) == es
    decreases es, 1
  {
    if es != [] {
      BracketKeeps(d, es[0]);
      BracketListKeeps(d, es[1..]);
    }
  }

  lemma OneTree(e: Expr, a: Algebra, mem: Memory)
    ensures SpellList([e]) == Spell(e) && AllArityOk([e]) == ArityOk(e) && Meanings(a, mem, [e]) == [Meaning(a, mem, e)]
  {
    assert [e][1..] == [];
  }

  // Every tree over the defined names, printed with the brackets it needs, evaluates to its meaning.
  lemma EvaluatesToMeaning(d: Defs, e: Expr, a: Algebra, mem: Memory)
    requires Named(d, e)
    ensures CreateRPN(d, Spell(Bracket(e))).Ok? <==> ArityOk(e)
    ensures ArityOk(e) ==>
              var p := CreateRPN(d, Spell(Bracket(e))).value;
              p.results == 1 && Run(a, mem, Config(p.code, [])) == Ok([Meaning(a, mem, e)])
  {
    hide Run, CreateFrom, SpellList, Spell, AllArityOk, ArityOk, Meaning, Meanings;
    BracketWorks(d, e, a, mem);
    OneTree(Bracket(e), a, mem);
    FormulaCompiles(d, [Bracket(e)]);
    if ArityOk(e) {
      CompiledFormula(d, [Bracket(e)], a, mem);
    }
  }

  // A fixed-arity call compiles exactly when its argument count matches, a variadic one when it has any.
  lemma CallCompiles(d: Defs, name: string, f: Fun, args: seq<Tree>)
    requires name in d.funs && d.funs[name] == f && Callable(f) && AllAgree(d, args) && AllArityOk(args)
    ensures CreateRPN(d, Spell(Call(name, f, args))).Ok? <==> (if f.argc == -1 then |args| > 0 else |args| == f.argc)
  {
    var call := Call(name, f, args);
    FormulaCompiles(d, [call]);
    assert [call][1..] == [];
    assert SpellList([call]) == Spell(call) && AllArityOk([call]) == ArityOk(call);
  }
}
