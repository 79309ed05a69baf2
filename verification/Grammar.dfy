/** The formula language's grammar, level by level, told without the parser's own
    table: what a formula without needless brackets means, as a reader groups it. */
module Grammar {
  import opened Sequences
  import opened Formula
  import opened Yard
  import opened Postfix
  import opened Machine
  import opened TokenReader
  import opened Correctness

  // Or, and, comparisons, sums, products: weakest first; powers bind tighter still.
  const LEVELS: nat := 5

  function Operators(level: nat): set<BinOp> {
    if level == 0 then {Or}
    else if level == 1 then {And}
    else if level == 2 then {Le, Ge, Neq, Eq, Lt, Gt}
    else if level == 3 then {Add, Sub}
    else if level == 4 then {Mul, Div}
    else {}
  }

  predicate IsAtom(e: Expr)
    decreases e, 1
  {
    match e
    case Num(_) => true
    case Const(_, _) => true
    case Var(_, _) => true
    case Call(_, f, args) => Callable(f) && forall x :: x in args ==> IsFormula(x)
    case Paren(x) => IsFormula(x)
    case _ => false
  }

  // A power's base is an atom, and powers group to the right.
  predicate IsPower(e: Expr)
    decreases e, 2
  {
    IsAtom(e) || (e.Bin? && e.op == Pow && IsAtom(e.l) && IsSigned(e.r))
  }

  // One sign at most, in front of a whole power.
  predicate IsSigned(e: Expr)
    decreases e, 3
  {
    IsPower(e) || (e.Unary? && IsPower(e.e))
  }

  // The operators of a level group to the left.
  predicate IsAt(e: Expr, level: nat)
    requires level <= LEVELS
    decreases e, 4 + LEVELS - level
  {
    if level == LEVELS then IsSigned(e)
    else IsAt(e, level + 1) || (e.Bin? && e.op in Operators(level) && IsAt(e.l, level) && IsAt(e.r, level + 1))
  }

  // A ternary takes everything to its left as its condition, and its branches are whole formulas.
  predicate IsFormula(e: Expr)
    decreases e, 5 + LEVELS
  {
    IsAt(e, 0) || (e.Cond? && IsAt(e.c, 0) && IsFormula(e.t) && IsFormula(e.f))
  }

  // Signs of the ordinary strength: that of products.
  predicate OrdinarySigns(d: Defs) {
    forall s :: s in d.infix ==> d.infix[s].prec == 6
  }

  // ----- What the grammar accepts needs no brackets -----

  function Strength(level: nat): int {
    if level < 2 then level + 1 else level + 2
  }

  lemma SignedCases(e: Expr)
    ensures IsAtom(e) ==> !e.Bin? && !e.Unary? && !e.Cond?
    ensures IsSigned(e) <==>
              || IsAtom(e)
              || (e.Bin? && e.op == Pow && IsAtom(e.l) && IsSigned(e.r))
              || (e.Unary? && IsSigned(e.e) && !e.e.Unary?)
  {
    assert IsPower(e) <==> IsAtom(e) || (e.Bin? && e.op == Pow && IsAtom(e.l) && IsSigned(e.r));
    if e.Unary? {
      assert !IsPower(e) && (IsSigned(e.e) && !e.e.Unary? <==> IsPower(e.e));
    }
  }

  lemma {:induction false} PowerCloses(d: Defs, e: Expr, next: Token)
    requires IsSigned(e) && Named(d, e) && OrdinarySigns(d)
    requires Precedence(next).Some? && Precedence(next).value <= 6
    ensures Closes(next, e)
    decreases e, 1
  {
    SignedCases(e);
    if e.Bin? {
      PowerCloses(d, e.r, next);
    } else if e.Unary? {
      PowerCloses(d, e.e, next);
    }
  }

  lemma {:induction false} LevelCloses(d: Defs, e: Expr, level: nat, next: Token)
    requires level <= LEVELS && IsAt(e, level) && Named(d, e) && OrdinarySigns(d)
    requires Precedence(next).Some? && Precedence(next).value <= Strength(level) && Precedence(next).value <= 6
    ensures Closes(next, e)
    decreases e, LEVELS - level
  {
    if level == LEVELS {
      PowerCloses(d, e, next);
    } else if IsAt(e, level + 1) {
      LevelCloses(d, e, level + 1, next);
    } else {
      LevelCloses(d, e.r, level + 1, next);
    }
  }

  lemma {:induction false} LevelFits(e: Expr, level: nat, top: Token)
    requires level <= LEVELS && IsAt(e, level)
    requires Precedence(top).Some?
    requires Precedence(top).value < Strength(level) || (level == LEVELS && top == TOp(Pow))
    ensures Fits(top, e)
    decreases e, LEVELS - level
  {
    if level == LEVELS {
      SignedCases(e);
      if e.Bin? { SignedCases(e.l); }
    } else if IsAt(e, level + 1) {
      LevelFits(e, level + 1, top);
    } else {
      LevelFits(e.l, level, top);
    }
  }

  // No sign in front of another: a power starts with an atom.
  lemma PowerStarts(e: Expr)
    requires IsSigned(e) && !e.Unary?
    ensures !StartsSigned(e)
  {
    SignedCases(e);
    if e.Bin? { SignedCases(e.l); }
  }

  lemma {:induction false} LevelBracketed(d: Defs, e: Expr, level: nat)
    requires level <= LEVELS && IsAt(e, level) && Named(d, e) && OrdinarySigns(d)
    ensures Bracketed(e) && Agrees(d, e)
    decreases e, 2 + LEVELS - level
  {
    if level == LEVELS {
      SignedBracketed(d, e);
    } else if IsAt(e, level + 1) {
      LevelBracketed(d, e, level + 1);
    } else {
      LevelBracketed(d, e.l, level);
      LevelBracketed(d, e.r, level + 1);
      LevelCloses(d, e.l, level, TOp(e.op));
      LevelFits(e.r, level + 1, TOp(e.op));
    }
  }

  lemma {:induction false} SignedBracketed(d: Defs, e: Expr)
    requires IsSigned(e) && Named(d, e) && OrdinarySigns(d)
    ensures Bracketed(e) && Agrees(d, e)
    decreases e, 1
  {
    SignedCases(e);
    if e.Unary? {
      SignedBracketed(d, e.e);
      LevelFits(e.e, LEVELS, TInfix(e.u));
      PowerStarts(e.e);
    } else if e.Bin? {
      AtomBracketed(d, e.l);
      SignedBracketed(d, e.r);
      LevelFits(e.r, LEVELS, TOp(Pow));
    } else {
      AtomBracketed(d, e);
    }
  }

  lemma {:induction false} AtomBracketed(d: Defs, e: Expr)
    requires IsAtom(e) && Named(d, e) && OrdinarySigns(d)
    ensures Bracketed(e) && Agrees(d, e)
    decreases e, 0
  {
    match e
    case Call(_, _, args) =>
      forall x | x in args ensures Bracketed(x) && Agrees(d, x) {
        NamedArgument(d, args, x);
        FormulaBracketed(d, x);
      }
    case Paren(x) => FormulaBracketed(d, x);
    case _ =>
  }

  lemma {:induction false} NamedArgument(d: Defs, args: seq<Expr>, x: Expr)
    requires AllNamed(d, args) && x in args
    ensures Named(d, x)
    decreases |args|
  {
    if x != args[0] {
      NamedArgument(d, args[1..], x);
    }
  }

  lemma {:induction false} FormulaBracketed(d: Defs, e: Expr)
    requires IsFormula(e) && Named(d, e) && OrdinarySigns(d)
    ensures Bracketed(e) && Agrees(d, e)
    decreases e, 3 + LEVELS
  {
    if IsAt(e, 0) {
      LevelBracketed(d, e, 0);
    } else {
      LevelBracketed(d, e.c, 0);
      LevelCloses(d, e.c, 0, TIf);
      FormulaBracketed(d, e.t);
      FormulaBracketed(d, e.f);
    }
  }

  // ----- What needs no brackets is in the grammar -----

  function LevelOf(op: BinOp): (level: nat)
    ensures if op == Pow then level == LEVELS else level < LEVELS && op in Operators(level)
  {
    match op
    case Or => 0
    case And => 1
    case Add => 3
    case Sub => 3
    case Mul => 4
    case Div => 4
    case Pow => 5
    case _ => 2
  }

  function TopLevel(e: Expr): (level: nat)
    ensures level <= LEVELS
  {
    if e.Bin? then LevelOf(e.op) else LEVELS
  }

  lemma {:induction false} AtLower(e: Expr, high: nat, low: nat)
    requires low <= high <= LEVELS && IsAt(e, high)
    ensures IsAt(e, low)
    decreases high - low
  {
    if low < high {
      AtLower(e, high, low + 1);
    }
  }

  lemma StrengthOf(op: BinOp)
    ensures Precedence(TOp(op)) == Some(Strength(LevelOf(op)))
  {
  }

  // A bracketed tree stands on its topmost operator's level.
  lemma {:induction false} BracketedLevel(d: Defs, e: Expr)
    requires Bracketed(e) && Agrees(d, e) && OrdinarySigns(d) && !e.Cond?
    ensures IsAt(e, TopLevel(e))
    decreases e, 0
  {
    SignedCases(e);
    match e
    case Bin(op, l, r) =>
      BracketedLevel(d, l);
      BracketedLevel(d, r);
      StrengthOf(op);
      OperandLevels(d, e);
      if op == Pow {
        SignedCases(l);
      } else {
        AtLower(l, TopLevel(l), LevelOf(op));
        AtLower(r, TopLevel(r), LevelOf(op) + 1);
      }
    case Unary(_, u, x) =>
      BracketedLevel(d, x);
      if x.Bin? { StrengthOf(x.op); }
    case Call(_, _, args) =>
      forall x | x in args ensures IsFormula(x) {
        BracketedFormula(d, x);
      }
    case Paren(x) => BracketedFormula(d, x);
    case _ =>
  }

  lemma OperandLevels(d: Defs, e: Expr)
    requires e.Bin? && Bracketed(e) && Agrees(d, e) && OrdinarySigns(d)
    ensures !e.l.Cond? && !e.r.Cond?
    ensures e.op != Pow ==> TopLevel(e.l) >= LevelOf(e.op) && TopLevel(e.r) > LevelOf(e.op)
    ensures e.op == Pow ==> !e.l.Bin? && !e.l.Unary? && TopLevel(e.r) == LEVELS
  {
    StrengthOf(e.op);
    if e.l.Bin? { StrengthOf(e.l.op); }
    if e.r.Bin? { StrengthOf(e.r.op); }
  }

  lemma {:induction false} BracketedFormula(d: Defs, e: Expr)
    requires Bracketed(e) && Agrees(d, e) && OrdinarySigns(d)
    ensures IsFormula(e)
    decreases e, 1
  {
    if e.Cond? {
      BracketedLevel(d, e.c);
      AtLower(e.c, TopLevel(e.c), 0);
      BracketedFormula(d, e.t);
      BracketedFormula(d, e.f);
    } else {
      BracketedLevel(d, e);
      AtLower(e, TopLevel(e), 0);
    }
  }

  // The brackets the parser's table asks for are the ones the grammar asks for.
  lemma GrammarDecides(d: Defs, e: Expr, a: Algebra, mem: Memory)
    requires Named(d, e) && OrdinarySigns(d)
    ensures Bracket(e) == e <==> IsFormula(e)
  {
    if IsFormula(e) {
      FormulaBracketed(d, e);
      BracketKeeps(d, e);
    }
    if Bracket(e) == e {
      BracketWorks(d, e, a, mem);
      BracketedFormula(d, e);
    }
  }

  // Every formula of the grammar is accepted as it is spelled exactly when its calls have
  // the right argument counts, and then runs to its meaning.
  lemma FormulaRuns(d: Defs, e: Expr, a: Algebra, mem: Memory)
    requires Named(d, e) && OrdinarySigns(d) && IsFormula(e)
    ensures CreateRPN(d, Spell(e)).Ok? <==> ArityOk(e)
    ensures ArityOk(e) ==>
              var p := CreateRPN(d, Spell(e)).value;
              p.results == 1 && Run(a, mem, Config(p.code, [])) == Ok([Meaning(a, mem, e)])
  {
    hide CreateRPN, Run, Spell, ArityOk, Meaning, IsFormula, Bracket;
    GrammarDecides(d, e, a, mem);
    EvaluatesToMeaning(d, e, a, mem);
  }

  // ----- Formulas of two operators, spelled out -----

  // The formula is accepted, and its one value is `v`.
  predicate Evaluates(d: Defs, formula: seq<Lexeme>, a: Algebra, mem: Memory, v: Value) {
    && CreateRPN(d, formula).Ok?
    && var p := CreateRPN(d, formula).value;
       p.results == 1 && Run(a, mem, Config(p.code, [])) == Ok([v])
  }

  predicate Operand(d: Defs, e: Expr) {
    IsAtom(e) && Named(d, e) && ArityOk(e)
  }

  // The second operator is applied first: it is the stronger one, or both are powers.
  predicate SecondFirst(f: BinOp, g: BinOp) {
    LevelOf(f) < LevelOf(g) || f == g == Pow
  }

  lemma Runs(d: Defs, e: Expr, a: Algebra, mem: Memory)
    requires Named(d, e) && OrdinarySigns(d) && IsFormula(e) && ArityOk(e)
    ensures Evaluates(d, Spell(e), a, mem, Meaning(a, mem, e))
  {
    hide CreateRPN, Run, Spell, ArityOk, Meaning, IsFormula;
    FormulaRuns(d, e, a, mem);
  }

  lemma AtomsEverywhere(e: Expr, level: nat)
    requires level <= LEVELS && IsAtom(e)
    ensures IsAt(e, level) && IsSigned(e)
  {
    SignedCases(e);
    AtLower(e, LEVELS, level);
  }

  // One operator between atoms stands on that operator's level.
  lemma OneOperator(x: Expr, f: BinOp, y: Expr)
    requires IsAtom(x) && IsAtom(y)
    ensures IsAt(Bin(f, x, y), LevelOf(f))
    ensures f == Pow ==> IsSigned(Bin(f, x, y))
  {
    SignedCases(Bin(f, x, y));
    AtomsEverywhere(x, LevelOf(f));
    AtomsEverywhere(y, if f == Pow then LEVELS else LevelOf(f) + 1);
  }

  // What a binary operator adds to its operands.
  lemma BinOf(d: Defs, x: Expr, f: BinOp, y: Expr, a: Algebra, mem: Memory)
    requires d.builtin && Named(d, x) && Named(d, y) && ArityOk(x) && ArityOk(y)
    ensures var e := Bin(f, x, y);
            && Named(d, e) && ArityOk(e) && Spell(e) == Spell(x) + [LOp(f)] + Spell(y)
            && Meaning(a, mem, e) == a.Binary(f, Meaning(a, mem, x), Meaning(a, mem, y))
  {
  }

  lemma SignOf(d: Defs, sign: BinOp, x: Expr, a: Algebra, mem: Memory)
    requires sign in d.infix && Named(d, x) && ArityOk(x)
    ensures var e := Unary(sign, d.infix[sign], x);
            && Named(d, e) && ArityOk(e) && Spell(e) == [LOp(sign)] + Spell(x)
            && Meaning(a, mem, e) == a.call(d.infix[sign].fn, [Meaning(a, mem, x)])
  {
  }

  // Which of two operators goes first is told by the levels alone.
  lemma TwoOperators(d: Defs, x: Expr, f: BinOp, y: Expr, g: BinOp, z: Expr, a: Algebra, mem: Memory)
    requires OrdinarySigns(d) && d.builtin && Operand(d, x) && Operand(d, y) && Operand(d, z)
    ensures var u, v, w := Meaning(a, mem, x), Meaning(a, mem, y), Meaning(a, mem, z);
            Evaluates(d, Spell(x) + [LOp(f)] + Spell(y) + [LOp(g)] + Spell(z), a, mem,
              if SecondFirst(f, g) then a.Binary(f, u, a.Binary(g, v, w)) else a.Binary(g, a.Binary(f, u, v), w))
  {
    var e := if SecondFirst(f, g) then Bin(f, x, Bin(g, y, z)) else Bin(g, Bin(f, x, y), z);
    GroupedFormula(x, f, y, g, z);
    hide *;
    if SecondFirst(f, g) {
      BinOf(d, y, g, z, a, mem);
      BinOf(d, x, f, Bin(g, y, z), a, mem);
      Assoc(Spell(x) + [LOp(f)], Spell(y) + [LOp(g)], Spell(z));
      Assoc(Spell(x) + [LOp(f)], Spell(y), [LOp(g)]);
    } else {
      BinOf(d, x, f, y, a, mem);
      BinOf(d, Bin(f, x, y), g, z, a, mem);
    }
    Runs(d, e, a, mem);
  }

  lemma GroupedFormula(x: Expr, f: BinOp, y: Expr, g: BinOp, z: Expr)
    requires IsAtom(x) && IsAtom(y) && IsAtom(z)
    ensures IsFormula(if SecondFirst(f, g) then Bin(f, x, Bin(g, y, z)) else Bin(g, Bin(f, x, y), z))
  {
    if SecondFirst(f, g) {
      OneOperator(y, g, z);
      SignedCases(Bin(f, x, Bin(g, y, z)));
      AtomsEverywhere(x, LevelOf(f));
      AtLower(Bin(g, y, z), LevelOf(g), if f == Pow then LEVELS else LevelOf(f) + 1);
      AtLower(Bin(f, x, Bin(g, y, z)), LevelOf(f), 0);
    } else {
      OneOperator(x, f, y);
      AtomsEverywhere(z, LevelOf(g) + 1);
      AtLower(Bin(f, x, y), LevelOf(f), LevelOf(g));
      AtLower(Bin(g, Bin(f, x, y), z), LevelOf(g), 0);
    }
  }

  // A sign takes a whole power and nothing more.
  lemma SignAndOperator(d: Defs, sign: BinOp, x: Expr, f: BinOp, y: Expr, a: Algebra, mem: Memory)
    requires OrdinarySigns(d) && d.builtin && sign in d.infix && Operand(d, x) && Operand(d, y)
    ensures var u, v, fn := Meaning(a, mem, x), Meaning(a, mem, y), d.infix[sign].fn;
            Evaluates(d, [LOp(sign)] + Spell(x) + [LOp(f)] + Spell(y), a, mem,
              if f == Pow then a.call(fn, [a.Binary(f, u, v)]) else a.Binary(f, a.call(fn, [u]), v))
  {
    var i := d.infix[sign];
    var e := if f == Pow then Unary(sign, i, Bin(f, x, y)) else Bin(f, Unary(sign, i, x), y);
    SignedFormula(sign, i, x, f, y);
    hide *;
    if f == Pow {
      BinOf(d, x, f, y, a, mem);
      SignOf(d, sign, Bin(f, x, y), a, mem);
      Assoc([LOp(sign)], Spell(x) + [LOp(f)], Spell(y));
      Assoc([LOp(sign)], Spell(x), [LOp(f)]);
    } else {
      SignOf(d, sign, x, a, mem);
      BinOf(d, Unary(sign, i, x), f, y, a, mem);
    }
    Runs(d, e, a, mem);
  }

  lemma SignedFormula(sign: BinOp, i: Infix, x: Expr, f: BinOp, y: Expr)
    requires IsAtom(x) && IsAtom(y)
    ensures IsFormula(if f == Pow then Unary(sign, i, Bin(f, x, y)) else Bin(f, Unary(sign, i, x), y))
  {
    if f == Pow {
      OneOperator(x, f, y);
      SignedCases(Unary(sign, i, Bin(f, x, y)));
      AtLower(Unary(sign, i, Bin(f, x, y)), LEVELS, 0);
    } else {
      SignedCases(x);
      SignedCases(Unary(sign, i, x));
      AtLower(Unary(sign, i, x), LEVELS, LevelOf(f));
      AtomsEverywhere(y, LevelOf(f) + 1);
      AtLower(Bin(f, Unary(sign, i, x), y), LevelOf(f), 0);
    }
  }

  // A comparison or a connective, and a ternary, of atoms: told by magnitudes alone.
  lemma ComparesMagnitudes(d: Defs, x: Expr, f: BinOp, y: Expr, a: Algebra, mem: Memory)
    requires OrdinarySigns(d) && d.builtin && Operand(d, x) && Operand(d, y)
    ensures var u, v := Meaning(a, mem, x), Meaning(a, mem, y);
            var p, q := a.abs(u), a.abs(v);
            var formula := Spell(x) + [LOp(f)] + Spell(y);
            && (f == Lt ==> Evaluates(d, formula, a, mem, a.truth(p < q)))
            && (f == Gt ==> Evaluates(d, formula, a, mem, a.truth(q < p)))
            && (f == Le ==> Evaluates(d, formula, a, mem, a.truth(!(q < p))))
            && (f == Ge ==> Evaluates(d, formula, a, mem, a.truth(!(p < q))))
            && (f == Eq ==> Evaluates(d, formula, a, mem, a.truth(a.equal(u, v))))
            && (f == Neq ==> Evaluates(d, formula, a, mem, a.truth(!a.equal(u, v))))
            && (f == And ==> Evaluates(d, formula, a, mem, a.truth(!(p == 0.0 || q == 0.0))))
            && (f == Or ==> Evaluates(d, formula, a, mem, a.truth(!(p == 0.0 && q == 0.0))))
            && (f in {Add, Sub, Mul, Div, Pow} ==> Evaluates(d, formula, a, mem, a.arith(f, u, v)))
  {
    var e := Bin(f, x, y);
    OneOperator(x, f, y);
    AtLower(e, LevelOf(f), 0);
    assert IsFormula(e);
    BinaryMeans(a, f, Meaning(a, mem, x), Meaning(a, mem, y));
    hide *;
    BinOf(d, x, f, y, a, mem);
    Runs(d, e, a, mem);
  }

  lemma TakesBranch(d: Defs, x: Expr, y: Expr, z: Expr, a: Algebra, mem: Memory)
    requires OrdinarySigns(d) && Operand(d, x) && Operand(d, y) && Operand(d, z)
    ensures Evaluates(d, Spell(x) + [LQuestion] + Spell(y) + [LColon] + Spell(z), a, mem,
              if a.abs(Meaning(a, mem, x)) == 0.0 then Meaning(a, mem, z) else Meaning(a, mem, y))
  {
    var e := Cond(x, y, z);
    AtomsEverywhere(x, 0);
    AtomsEverywhere(y, 0);
    AtomsEverywhere(z, 0);
    assert IsFormula(y) && IsFormula(z) && IsFormula(e);
    Runs(d, e, a, mem);
  }

  // A number is itself, a constant its value, a variable what its cell holds, and brackets
  // change nothing.
  lemma NamesMean(d: Defs, name: string, v: Value, a: Algebra, mem: Memory)
    requires OrdinarySigns(d)
    ensures Evaluates(d, [LNum(v)], a, mem, v) && Evaluates(d, [LOpen, LNum(v), LClose], a, mem, v)
    ensures name in d.consts ==> Evaluates(d, [LName(name)], a, mem, d.consts[name])
    ensures name in d.vars && name !in d.consts ==> Evaluates(d, [LName(name)], a, mem, mem(d.vars[name]))
  {
    hide Evaluates, IsAt, CreateRPN, Run;
    assert Spell(Paren(Num(v))) == [LOpen, LNum(v), LClose];
    AtomRuns(d, Num(v), a, mem);
    InBrackets(Num(v));
    AtomRuns(d, Paren(Num(v)), a, mem);
    if name in d.consts {
      AtomRuns(d, Const(name, d.consts[name]), a, mem);
    } else if name in d.vars {
      AtomRuns(d, Var(name, d.vars[name]), a, mem);
    }
  }

  lemma AtomRuns(d: Defs, e: Expr, a: Algebra, mem: Memory)
    requires OrdinarySigns(d) && Operand(d, e)
    ensures Evaluates(d, Spell(e), a, mem, Meaning(a, mem, e))
  {
    hide Evaluates, Spell, Meaning;
    AtomsEverywhere(e, 0);
    Runs(d, e, a, mem);
  }

  lemma InBrackets(e: Expr)
    requires IsAtom(e)
    ensures IsAtom(Paren(e))
  {
    AtomsEverywhere(e, 0);
  }

  // A call passes the values of its arguments in order.
  lemma CallPasses(d: Defs, name: string, args: seq<Expr>, a: Algebra, mem: Memory)
    requires OrdinarySigns(d) && name in d.funs && Callable(d.funs[name]) && Accepts(d.funs[name], |args|)
    requires forall x :: x in args ==> IsFormula(x) && Named(d, x) && ArityOk(x)
    ensures var values := seq(|args|, k requires 0 <= k < |args| => Meaning(a, mem, args[k]));
            Evaluates(d, [LName(name), LOpen] + SpellList(args) + [LClose], a, mem, a.call(d.funs[name].fn, values))
  {
    var e := Call(name, d.funs[name], args);
    ArgumentsFit(d, args);
    MeaningsAre(a, mem, args);
    assert Meanings(a, mem, args) == seq(|args|, k requires 0 <= k < |args| => Meaning(a, mem, args[k]));
    assert Operand(d, e) by { hide IsFormula; }
    hide Evaluates, IsFormula, Named, ArityOk;
    AtomRuns(d, e, a, mem);
  }

  lemma {:induction false} ArgumentsFit(d: Defs, args: seq<Expr>)
    requires forall x :: x in args ==> Named(d, x) && ArityOk(x)
    ensures AllNamed(d, args) && AllArityOk(args)
    decreases |args|
  {
    hide Named, ArityOk;
    if args != [] {
      ArgumentsFit(d, args[1..]);
    }
  }

  lemma {:induction false} MeaningsAre(a: Algebra, mem: Memory, args: seq<Expr>)
    ensures forall k :: 0 <= k < |args| ==> Meanings(a, mem, args)[k] == Meaning(a, mem, args[k])
    decreases |args|
  {
    hide Meaning;
    if args != [] {
      MeaningsAre(a, mem, args[1..]);
    }
  }
}
