/** The token reader: a syntax-flag state machine over the formula's lexemes.
    A `-` is a binary operator or a sign depending on the flags alone. */
module TokenReader {
  import opened Sequences
  import opened Formula

  datatype Lexeme =
    | LName(name: string)
    | LNum(val: Value)
    | LOp(op: BinOp)
    | LOpen | LClose | LQuestion | LColon | LComma

  // What the parser object has defined. An infix operator shares the text of a built-in one.
  datatype Defs = Defs(
    vars: map<string, nat>, consts: map<string, Value>, funs: map<string, Fun>, infix: map<BinOp, Infix>,
    builtin: bool)

  // What may not come next.
  datatype Flags = Flags(
    noBO: bool, noBC: bool, noVAL: bool, noVAR: bool, noSEP: bool, noFUN: bool,
    noOPT: bool, noINFIX: bool, noEND: bool, noIF: bool, noELSE: bool)

  const NOTHING := Flags(false, false, false, false, false, false, false, false, false, false, false)
  const ANY := Flags(true, true, true, true, true, true, true, true, true, true, true)
  const AT_START := NOTHING.(noOPT := true, noBC := true, noIF := true, noELSE := true, noSEP := true)
  const AFTER_OP := NOTHING.(noBC := true, noOPT := true, noSEP := true, noIF := true, noELSE := true, noEND := true)
  const AFTER_FUN_OPEN := NOTHING.(noOPT := true, noEND := true, noSEP := true, noIF := true, noELSE := true)
  const AFTER_OPEN := AFTER_FUN_OPEN.(noBC := true)
  const AFTER_OPERAND := NOTHING.(noBO := true, noVAL := true, noVAR := true, noFUN := true, noINFIX := true)
  const AFTER_BRANCH := NOTHING.(noBC := true, noEND := true, noOPT := true, noIF := true, noELSE := true)
  const AFTER_SEP := NOTHING.(noBC := true, noOPT := true, noEND := true, noSEP := true)
  const AFTER_INFIX := NOTHING.(noINFIX := true, noOPT := true, noBC := true)
  const AFTER_FUN := ANY.(noBO := false)

  // The formula from the reading position on, and the reader's state.
  datatype Cursor = Cursor(rest: seq<Lexeme>, flags: Flags, brackets: int, last: Option<Token>)

  function Start(formula: seq<Lexeme>): Cursor {
    Cursor(formula, AT_START, 0, None)
  }

  // A name is a function only when the very next character opens a bracket.
  predicate IsCall(d: Defs, rest: seq<Lexeme>) {
    |rest| > 1 && rest[0].LName? && rest[0].name in d.funs && rest[1] == LOpen
  }

  // The token at the cursor with the flags and bracket count it leaves, or why it is refused.
  datatype Recognised = Recognised(token: Token, flags: Flags, brackets: int)

  function Recognise(d: Defs, c: Cursor): Result<Recognised> {
    var f, b := c.flags, c.brackets;
    if c.rest == [] then
      if f.noEND then Err(UnexpectedEof)
      else if b > 0 then Err(MissingParens)
      else Ok(Recognised(TEnd, NOTHING, b))
    else
      match c.rest[0]
      case LName(n) =>
        if IsCall(d, c.rest) then
          if f.noFUN then Err(UnexpectedFun) else Ok(Recognised(TFun(d.funs[n]), AFTER_FUN, b))
        else if n in d.consts then
          if f.noVAL then Err(UnexpectedVal) else Ok(Recognised(TVal(d.consts[n]), AFTER_OPERAND, b))
        else if n in d.vars then
          if f.noVAR then Err(UnexpectedVar) else Ok(Recognised(TVar(d.vars[n]), AFTER_OPERAND, b))
        else Err(UnassignableToken)
      case LNum(v) => if f.noVAL then Err(UnexpectedVal) else Ok(Recognised(TVal(v), AFTER_OPERAND, b))
      case LOp(op) =>
        if d.builtin && !f.noOPT then Ok(Recognised(TOp(op), AFTER_OP, b))
        else if op !in d.infix then Err(if d.builtin then UnexpectedOperator else UnassignableToken)
        else if f.noINFIX then Err(UnexpectedOperator)
        else Ok(Recognised(TInfix(d.infix[op]), AFTER_INFIX, b))
      case LOpen =>
        if f.noBO then Err(UnexpectedParens)
        else
          var afterFun := c.last.Some? && c.last.value.TFun?;
          Ok(Recognised(TOpen, if afterFun then AFTER_FUN_OPEN else AFTER_OPEN, b + 1))
      case LClose =>
        if f.noBC || b - 1 < 0 then Err(UnexpectedParens) else Ok(Recognised(TClose, AFTER_OPERAND, b - 1))
      case LQuestion => if f.noIF then Err(UnexpectedConditional) else Ok(Recognised(TIf, AFTER_BRANCH, b))
      case LColon => if f.noELSE then Err(UnexpectedConditional) else Ok(Recognised(TElse, AFTER_BRANCH, b))
      case LComma => if f.noSEP then Err(UnexpectedArgSep) else Ok(Recognised(TSep, AFTER_SEP, b))
  }

  // The cursor after a token: one lexeme on, unless at the end.
  function Advance(c: Cursor, r: Recognised): Cursor {
    Cursor(if c.rest == [] then [] else c.rest[1..], r.flags, r.brackets, Some(r.token))
  }

  // All tokens up to and with the end of the formula.
  function ReadAll(d: Defs, c: Cursor): Result<seq<Token>>
    decreases |c.rest|
  {
    var r :- Recognise(d, c);
    if c.rest == [] then Ok([r.token])
    else
      var ts :- ReadAll(d, Advance(c, r));
      Ok([r.token] + ts)
  }

  lemma EndOnlyAtEnd(d: Defs, c: Cursor)
    requires Recognise(d, c).Ok?
    ensures Recognise(d, c).value.token == TEnd <==> c.rest == []
  {
  }

  // ----- Reading what was printed -----

  function Spell(e: Expr): (ls: seq<Lexeme>)
    ensures ls != []
    decreases e, 0
  {
    match e
    case Num(v) => [LNum(v)]
    case Const(n, _) => [LName(n)]
    case Var(n, _) => [LName(n)]
    case Bin(op, l, r) => Spell(l) + [LOp(op)] + Spell(r)
    case Unary(sign, _, x) => [LOp(sign)] + Spell(x)
    case Cond(c, t, f) => Spell(c) + [LQuestion] + Spell(t) + [LColon] + Spell(f)
    case Call(n, _, args) => [LName(n), LOpen] + SpellList(args) + [LClose]
    case Paren(x) => [LOpen] + Spell(x) + [LClose]
  }

  function SpellList(es: seq<Expr>): seq<Lexeme>
    decreases es, 1
  {
    if es == [] then []
    else if |es| == 1 then Spell(es[0])
    else Spell(es[0]) + [LComma] + SpellList(es[1..])
  }

  predicate StartsSigned(e: Expr) {
    match e
    case Unary(_, _, _) => true
    case Bin(_, l, _) => StartsSigned(l)
    case Cond(c, _, _) => StartsSigned(c)
    case _ => false
  }

  // The definitions give every name of the tree its payload, and no two signs stand side by side.
  predicate Agrees(d: Defs, e: Expr)
    decreases e
  {
    match e
    case Num(_) => true
    case Const(n, v) => n in d.consts && d.consts[n] == v
    case Var(n, addr) => n in d.vars && n !in d.consts && d.vars[n] == addr
    case Bin(_, l, r) => d.builtin && Agrees(d, l) && Agrees(d, r)
    case Unary(sign, u, x) => sign in d.infix && d.infix[sign] == u && !StartsSigned(x) && Agrees(d, x)
    case Cond(c, t, f) => Agrees(d, c) && Agrees(d, t) && Agrees(d, f)
    case Call(n, f, args) => n in d.funs && d.funs[n] == f && forall a | a in args :: Agrees(d, a)
    case Paren(x) => Agrees(d, x)
  }

  predicate AllAgree(d: Defs, es: seq<Expr>) {
    forall e | e in es :: Agrees(d, e)
  }

  // An operand may start here; a sign too, unless one has just been read.
  predicate WantsOperand(f: Flags, e: Expr) {
    !f.noBO && !f.noVAL && !f.noVAR && !f.noFUN && f.noOPT && (StartsSigned(e) ==> !f.noINFIX)
  }

  predicate NoCallAhead(rest: seq<Lexeme>) {
    rest == [] || rest[0] != LOpen
  }

  function Prefix(ts: seq<Token>, r: Result<seq<Token>>): Result<seq<Token>> {
    if r.Ok? then Ok(ts + r.value) else r
  }

  function Last(ts: seq<Token>): Token
    requires ts != []
  {
    ts[|ts| - 1]
  }

  // Past a tree: its last token is remembered and an operator must come next.
  function Past(rest: seq<Lexeme>, brackets: int, last: Token): Cursor {
    Cursor(rest, AFTER_OPERAND, brackets, Some(last))
  }

  lemma ReadOne(d: Defs, l: Lexeme, rest: seq<Lexeme>, f: Flags, b: int, last: Option<Token>)
    ensures
      var c := Cursor([l] + rest, f, b, last);
      var r := Recognise(d, c);
      ReadAll(d, c)
      == if r.Err? then Err(r.error)
         else
           var next := Cursor(rest, r.value.flags, r.value.brackets, Some(r.value.token));
           Prefix([r.value.token], ReadAll(d, next))
  {
    assert ([l] + rest)[1..] == rest;
  }

  // A lexeme whose recognition depends on nothing but the flags.
  lemma ReadKnown(d: Defs, l: Lexeme, rest: seq<Lexeme>, f: Flags, b: int, last: Option<Token>, r: Recognised)
    requires Recognise(d, Cursor([l] + rest, f, b, last)) == Ok(r)
    ensures ReadAll(d, Cursor([l] + rest, f, b, last))
         == Prefix([r.token], ReadAll(d, Cursor(rest, r.flags, r.brackets, Some(r.token))))
  {
    ReadOne(d, l, rest, f, b, last);
  }

  // What follows an operand, whatever the operand's last token was.
  lemma ReadAfterOperand(d: Defs, l: Lexeme, rest: seq<Lexeme>, b: int, last: Token)
    requires l.LOp? ==> d.builtin
    requires l.LOp? || l in {LQuestion, LColon, LComma}
    ensures
      var t := match l case LOp(op) => TOp(op) case LQuestion => TIf case LColon => TElse case _ => TSep;
      var f := if l.LOp? then AFTER_OP else if l == LComma then AFTER_SEP else AFTER_BRANCH;
      ReadAll(d, Past([l] + rest, b, last)) == Prefix([t], ReadAll(d, Cursor(rest, f, b, Some(t))))
  {
    ReadOne(d, l, rest, AFTER_OPERAND, b, Some(last));
  }

  lemma ReadBracket(d: Defs, rest: seq<Lexeme>, f: Flags, b: int, last: Option<Token>)
    requires !f.noBO && (last.Some? ==> !last.value.TFun?)
    ensures ReadAll(d, Cursor([LOpen] + rest, f, b, last))
         == Prefix([TOpen], ReadAll(d, Cursor(rest, AFTER_OPEN, b + 1, Some(TOpen))))
  {
    ReadOne(d, LOpen, rest, f, b, last);
  }

  lemma ReadClose(d: Defs, rest: seq<Lexeme>, b: nat, last: Token)
    ensures ReadAll(d, Past([LClose] + rest, b + 1, last)) == Prefix([TClose], ReadAll(d, Past(rest, b, TClose)))
  {
    ReadOne(d, LClose, rest, AFTER_OPERAND, b + 1, Some(last));
  }

  lemma PrefixTwice(a: seq<Token>, b: seq<Token>, r: Result<seq<Token>>)
    ensures Prefix(a, Prefix(b, r)) == Prefix(a + b, r)
  {
    if r.Ok? {
      assert a + (b + r.value) == a + b + r.value;
    }
  }

  lemma PrefixThrice(a: seq<Token>, b: seq<Token>, c: seq<Token>, r: Result<seq<Token>>)
    ensures Prefix(a, Prefix(b, Prefix(c, r))) == Prefix(a + b + c, r)
  {
    PrefixTwice(b, c, r);
    PrefixTwice(a, b + c, r);
    assert a + (b + c) == a + b + c;
  }

  // A printed tree is read back token for token, whatever follows it and however deep the brackets are.
  lemma {:induction false} ReadSpelled(d: Defs, e: Expr, rest: seq<Lexeme>, f: Flags, b: nat, last: Option<Token>)
    requires Agrees(d, e) && WantsOperand(f, e) && NoCallAhead(rest) && (last.Some? ==> !last.value.TFun?)
    ensures ReadAll(d, Cursor(Spell(e) + rest, f, b, last))
         == Prefix(Print(e), ReadAll(d, Past(rest, b, Last(Print(e)))))
    decreases e, 2
  {
    match e
    case Bin(_, _, _) => SpelledBin(d, e, rest, f, b, last);
    case Unary(_, _, _) => SpelledUnary(d, e, rest, f, b, last);
    case Cond(_, _, _) => SpelledCond(d, e, rest, f, b, last);
    case Call(_, _, _) => SpelledCall(d, e, rest, f, b, last);
    case Paren(_) => SpelledParen(d, e, rest, f, b, last);
    case _ => ReadOne(d, Spell(e)[0], rest, f, b, last);
  }

  lemma {:induction false} SpelledBin(d: Defs, e: Expr, rest: seq<Lexeme>, f: Flags, b: nat, last: Option<Token>)
    requires e.Bin? && Agrees(d, e) && WantsOperand(f, e) && NoCallAhead(rest) && (last.Some? ==> !last.value.TFun?)
    ensures ReadAll(d, Cursor(Spell(e) + rest, f, b, last))
         == Prefix(Print(e), ReadAll(d, Past(rest, b, Last(Print(e)))))
    decreases e, 0
  {
    hide ReadAll, Prefix, Recognise, Spell, Print;
    var op, tail := LOp(e.op), Spell(e.r) + rest;
    SplitBin(e, rest);
    ReadSpelled(d, e.l, [op] + tail, f, b, last);
    ReadAfterOperand(d, op, tail, b, Last(Print(e.l)));
    ReadSpelled(d, e.r, rest, AFTER_OP, b, Some(TOp(e.op)));
    PrefixThrice(Print(e.l), [TOp(e.op)], Print(e.r), ReadAll(d, Past(rest, b, Last(Print(e.r)))));
  }

  lemma {:induction false} SpelledUnary(d: Defs, e: Expr, rest: seq<Lexeme>, f: Flags, b: nat, last: Option<Token>)
    requires e.Unary? && Agrees(d, e) && WantsOperand(f, e) && NoCallAhead(rest) && (last.Some? ==> !last.value.TFun?)
    ensures ReadAll(d, Cursor(Spell(e) + rest, f, b, last))
         == Prefix(Print(e), ReadAll(d, Past(rest, b, Last(Print(e)))))
    decreases e, 0
  {
    hide ReadAll, Prefix, Spell, Print;
    var tail := Spell(e.e) + rest;
    SplitUnary(e, rest);
    ReadKnown(d, LOp(e.sign), tail, f, b, last, Recognised(TInfix(e.u), AFTER_INFIX, b));
    ReadSpelled(d, e.e, rest, AFTER_INFIX, b, Some(TInfix(e.u)));
    PrefixTwice([TInfix(e.u)], Print(e.e), ReadAll(d, Past(rest, b, Last(Print(e.e)))));
  }

  lemma SplitUnary(e: Expr, rest: seq<Lexeme>)
    requires e.Unary?
    ensures Spell(e) + rest == [LOp(e.sign)] + (Spell(e.e) + rest)
    ensures Print(e) == [TInfix(e.u)] + Print(e.e) && Last(Print(e)) == Last(Print(e.e))
  {
    assert Spell(e) == [LOp(e.sign)] + Spell(e.e) && Print(e) == [TInfix(e.u)] + Print(e.e);
    hide Spell, Print, Last;
    Assoc([LOp(e.sign)], Spell(e.e), rest);
    LastOfConcat([TInfix(e.u)], Print(e.e));
  }

  lemma {:induction false} SpelledCond(d: Defs, e: Expr, rest: seq<Lexeme>, f: Flags, b: nat, last: Option<Token>)
    requires e.Cond? && Agrees(d, e) && WantsOperand(f, e) && NoCallAhead(rest) && (last.Some? ==> !last.value.TFun?)
    ensures ReadAll(d, Cursor(Spell(e) + rest, f, b, last))
         == Prefix(Print(e), ReadAll(d, Past(rest, b, Last(Print(e)))))
    decreases e, 1
  {
    hide ReadAll, Prefix, Recognise, Spell, Print;
    var branches := Spell(e.t) + [LColon] + Spell(e.f) + rest;
    SplitCond(e, rest);
    SplitCondTokens(e);
    ReadSpelled(d, e.c, [LQuestion] + branches, f, b, last);
    ReadAfterOperand(d, LQuestion, branches, b, Last(Print(e.c)));
    SpelledBranches(d, e, rest, b);
    PrefixThrice(Print(e.c), [TIf], Print(e.t) + [TElse] + Print(e.f), ReadAll(d, Past(rest, b, Last(Print(e.f)))));
  }

  lemma SplitCond(e: Expr, rest: seq<Lexeme>)
    requires e.Cond?
    ensures Spell(e) + rest == Spell(e.c) + ([LQuestion] + (Spell(e.t) + [LColon] + Spell(e.f) + rest))
  {
    assert Spell(e) == Spell(e.c) + [LQuestion] + Spell(e.t) + [LColon] + Spell(e.f);
    hide Spell;
    Regroup(Spell(e.c), [LQuestion], Spell(e.t), [LColon], Spell(e.f), rest);
  }

  lemma Regroup<T>(a: seq<T>, x: seq<T>, b: seq<T>, y: seq<T>, c: seq<T>, rest: seq<T>)
    ensures a + x + b + y + c + rest == a + (x + (b + y + c + rest))
  {
  }

  lemma SplitCondTokens(e: Expr)
    requires e.Cond?
    ensures Print(e) == Print(e.c) + [TIf] + (Print(e.t) + [TElse] + Print(e.f))
    ensures Last(Print(e)) == Last(Print(e.f))
  {
    assert Print(e) == Print(e.c) + [TIf] + Print(e.t) + [TElse] + Print(e.f);
    hide Print;
    Regroup(Print(e.c), [TIf], Print(e.t), [TElse], Print(e.f), []);
    RegroupNone(Print(e.c), [TIf], Print(e.t) + [TElse] + Print(e.f));
    LastOfConcat(Print(e.c) + [TIf] + Print(e.t) + [TElse], Print(e.f));
  }

  lemma RegroupNone<T>(a: seq<T>, x: seq<T>, b: seq<T>)
    ensures a + (x + (b + [])) == a + x + b
  {
  }

  lemma Regroup3<T>(a: seq<T>, x: seq<T>, b: seq<T>, rest: seq<T>)
    ensures a + x + b + rest == a + (x + (b + rest))
  {
  }

  lemma SplitBin(e: Expr, rest: seq<Lexeme>)
    requires e.Bin?
    ensures Spell(e) + rest == Spell(e.l) + ([LOp(e.op)] + (Spell(e.r) + rest))
    ensures Print(e) == Print(e.l) + [TOp(e.op)] + Print(e.r) && Last(Print(e)) == Last(Print(e.r))
  {
    assert Spell(e) == Spell(e.l) + [LOp(e.op)] + Spell(e.r);
    assert Print(e) == Print(e.l) + [TOp(e.op)] + Print(e.r);
    hide Spell, Print, Last;
    Regroup3(Spell(e.l), [LOp(e.op)], Spell(e.r), rest);
    LastOfConcat(Print(e.l) + [TOp(e.op)], Print(e.r));
  }

  lemma SplitCall(e: Expr, rest: seq<Lexeme>)
    requires e.Call?
    ensures Spell(e) + rest == [LName(e.name)] + ([LOpen] + (SpellList(e.args) + ([LClose] + rest)))
    ensures Print(e) == [TFun(e.fun)] + [TOpen] + (PrintList(e.args) + [TClose]) && Last(Print(e)) == TClose
  {
    assert Spell(e) == [LName(e.name), LOpen] + SpellList(e.args) + [LClose];
    assert Print(e) == [TFun(e.fun), TOpen] + PrintList(e.args) + [TClose];
    hide Spell, Print, SpellList, PrintList;
  }

  // From the `?` on.
  lemma {:induction false} SpelledBranches(d: Defs, e: Expr, rest: seq<Lexeme>, b: nat)
    requires e.Cond? && Agrees(d, e.t) && Agrees(d, e.f) && NoCallAhead(rest)
    ensures ReadAll(d, Cursor(Spell(e.t) + [LColon] + Spell(e.f) + rest, AFTER_BRANCH, b, Some(TIf)))
         == Prefix(Print(e.t) + [TElse] + Print(e.f), ReadAll(d, Past(rest, b, Last(Print(e.f)))))
    decreases e, 0
  {
    hide ReadAll, Prefix, Recognise, Spell, Print;
    var tail := Spell(e.f) + rest;
    assert Spell(e.t) + [LColon] + Spell(e.f) + rest == Spell(e.t) + ([LColon] + tail);
    ReadSpelled(d, e.t, [LColon] + tail, AFTER_BRANCH, b, Some(TIf));
    ReadAfterOperand(d, LColon, tail, b, Last(Print(e.t)));
    ReadSpelled(d, e.f, rest, AFTER_BRANCH, b, Some(TElse));
    PrefixThrice(Print(e.t), [TElse], Print(e.f), ReadAll(d, Past(rest, b, Last(Print(e.f)))));
  }

  lemma {:induction false} SpelledParen(d: Defs, e: Expr, rest: seq<Lexeme>, f: Flags, b: nat, last: Option<Token>)
    requires e.Paren? && Agrees(d, e) && WantsOperand(f, e) && NoCallAhead(rest) && (last.Some? ==> !last.value.TFun?)
    ensures ReadAll(d, Cursor(Spell(e) + rest, f, b, last))
         == Prefix(Print(e), ReadAll(d, Past(rest, b, Last(Print(e)))))
    decreases e, 0
  {
    hide ReadAll, Prefix, Recognise;
    var tail := [LClose] + rest;
    assert Spell(e) + rest == [LOpen] + (Spell(e.e) + tail);
    ReadBracket(d, Spell(e.e) + tail, f, b, last);
    ReadSpelled(d, e.e, tail, AFTER_OPEN, b + 1, Some(TOpen));
    ReadClose(d, rest, b, Last(Print(e.e)));
    PrefixThrice([TOpen], Print(e.e), [TClose], ReadAll(d, Past(rest, b, TClose)));
  }

  lemma {:induction false} SpelledCall(d: Defs, e: Expr, rest: seq<Lexeme>, f: Flags, b: nat, last: Option<Token>)
    requires e.Call? && Agrees(d, e) && WantsOperand(f, e) && NoCallAhead(rest) && (last.Some? ==> !last.value.TFun?)
    ensures ReadAll(d, Cursor(Spell(e) + rest, f, b, last))
         == Prefix(Print(e), ReadAll(d, Past(rest, b, Last(Print(e)))))
    decreases e, 0
  {
    hide ReadAll, Prefix, Spell, Print;
    var fun, tail := TFun(e.fun), [LClose] + rest;
    var inside, r := SpellList(e.args) + tail, ReadAll(d, Past(rest, b, TClose));
    SplitCall(e, rest);
    ReadOne(d, LName(e.name), [LOpen] + inside, f, b, last);
    ReadOne(d, LOpen, inside, AFTER_FUN, b, Some(fun));
    if e.args == [] {
      assert inside == tail && PrintList(e.args) + [TClose] == [TClose];
      ReadOne(d, LClose, rest, AFTER_FUN_OPEN, b + 1, Some(TOpen));
      PrefixThrice([fun], [TOpen], [TClose], r);
    } else {
      SpelledList(d, e.args, tail, AFTER_FUN_OPEN, b + 1, Some(TOpen));
      ReadClose(d, rest, b, Last(PrintList(e.args)));
      PrefixTwice(PrintList(e.args), [TClose], r);
      PrefixThrice([fun], [TOpen], PrintList(e.args) + [TClose], r);
    }
  }

  lemma {:induction false} SpelledList(
    d: Defs, es: seq<Expr>, rest: seq<Lexeme>, f: Flags, b: nat, last: Option<Token>)
    requires es != [] && AllAgree(d, es) && NoCallAhead(rest) && (last.Some? ==> !last.value.TFun?)
    requires !f.noBO && !f.noVAL && !f.noVAR && !f.noFUN && f.noOPT && !f.noINFIX
    ensures ReadAll(d, Cursor(SpellList(es) + rest, f, b, last))
         == Prefix(PrintList(es), ReadAll(d, Past(rest, b, Last(PrintList(es)))))
    decreases es, 3
  {
    hide ReadAll, Prefix, Recognise, Spell, Print;
    var e := es[0];
    if |es| == 1 {
      ReadSpelled(d, e, rest, f, b, last);
    } else {
      var tail := SpellList(es[1..]) + rest;
      assert SpellList(es) + rest == Spell(e) + ([LComma] + tail);
      ReadSpelled(d, e, [LComma] + tail, f, b, last);
      ReadAfterOperand(d, LComma, tail, b, Last(Print(e)));
      SpelledList(d, es[1..], rest, AFTER_SEP, b, Some(TSep));
      PrefixThrice(Print(e), [TSep], PrintList(es[1..]),
                   ReadAll(d, Past(rest, b, Last(PrintList(es[1..])))));
    }
  }

  // The reader accepts every printed comma list and gives back its tokens, the end included.
  lemma ReadsFormula(d: Defs, es: seq<Expr>)
    requires es != [] && AllAgree(d, es)
    ensures ReadAll(d, Start(SpellList(es))) == Ok(PrintList(es) + [TEnd])
  {
    SpelledList(d, es, [], AT_START, 0, None);
    assert SpellList(es) + [] == SpellList(es);
  }

  // ----- The reader object -----

  // What one recogniser may have done to the reader: nothing, or read the token at the cursor.
  predicate Seen(d: Defs, before: Cursor, r: Result<Option<Token>>, after: Cursor) {
    match r
    case Err(e) => Recognise(d, before) == Err(e)
    case Ok(None) => after == before
    case Ok(Some(t)) =>
      && Recognise(d, before).Ok?
      && Recognise(d, before).value.token == t
      && after == Advance(before, Recognise(d, before).value).(last := before.last)
  }

  class ParserTokenReader {
    var formula: seq<Lexeme>
    var pos: nat
    var flags: Flags
    var brackets: int
    var last: Option<Token>

    ghost predicate Valid()
      reads this
    {
      pos <= |formula|
    }

    function Here(): Cursor
      requires Valid()
      reads this
    {
      Cursor(formula[pos..], flags, brackets, last)
    }

    constructor ()
      ensures Valid() && formula == [] && Here() == Start([])
    {
      formula, pos, flags, brackets, last := [], 0, AT_START, 0, None;
    }

    method SetFormula(f: seq<Lexeme>)
      modifies this
      ensures Valid() && formula == f && Here() == Start(f)
    {
      formula := f;
      ReInit();
    }

    method ReInit()
      modifies this
      ensures Valid() && formula == old(formula) && Here() == Start(formula)
    {
      pos, flags, brackets, last := 0, AT_START, 0, None;
    }

    method IsEOF(d: Defs) returns (r: Result<Option<Token>>)
      requires Valid()
      modifies this
      ensures Valid() && formula == old(formula) && Seen(d, old(Here()), r, Here())
      ensures r == Ok(None) ==> pos < |formula|
    {
      if pos == |formula| {
        if flags.noEND { return Err(UnexpectedEof); }
        if brackets > 0 { return Err(MissingParens); }
        flags := NOTHING;
        return Ok(Some(TEnd));
      }
      return Ok(None);
    }

    method IsFunTok(d: Defs) returns (r: Result<Option<Token>>)
      requires Valid() && pos < |formula|
      modifies this
      ensures Valid() && formula == old(formula) && Seen(d, old(Here()), r, Here())
      ensures r == Ok(None) ==> !IsCall(d, Here().rest)
    {
      var l := formula[pos];
      if !l.LName? || l.name !in d.funs { return Ok(None); }
      if pos + 1 == |formula| || formula[pos + 1] != LOpen { return Ok(None); }
      if flags.noFUN { return Err(UnexpectedFun); }
      pos, flags := pos + 1, AFTER_FUN;
      return Ok(Some(TFun(d.funs[l.name])));
    }

    // A unary operator sharing the text of a built-in one.
    method IsInfixOpTok(d: Defs) returns (r: Result<Option<Token>>)
      requires Valid() && pos < |formula|
      requires formula[pos].LOp? ==> flags.noOPT || !d.builtin
      modifies this
      ensures Valid() && formula == old(formula) && Seen(d, old(Here()), r, Here())
      ensures r == Ok(None) ==> formula[pos].LOp? ==> formula[pos].op !in d.infix
    {
      var l := formula[pos];
      if !l.LOp? || l.op !in d.infix { return Ok(None); }
      if flags.noINFIX { return Err(UnexpectedOperator); }
      pos, flags := pos + 1, AFTER_INFIX;
      return Ok(Some(TInfix(d.infix[l.op])));
    }

    method IsBuiltIn(d: Defs) returns (r: Result<Option<Token>>)
      requires Valid() && pos < |formula|
      modifies this
      ensures Valid() && formula == old(formula) && Seen(d, old(Here()), r, Here())
      ensures r == Ok(None) ==>
                !(formula[pos] in {LOpen, LClose, LQuestion, LColon}) && (formula[pos].LOp? ==> !d.builtin)
    {
      match formula[pos] {
        case LOp(op) =>
          if !d.builtin { return Ok(None); }
          if flags.noOPT {
            r := IsInfixOpTok(d);
            if r == Ok(None) { return Err(UnexpectedOperator); }
            return r;
          }
          pos, flags := pos + 1, AFTER_OP;
          return Ok(Some(TOp(op)));
        case LOpen =>
          if flags.noBO { return Err(UnexpectedParens); }
          flags := if last.Some? && last.value.TFun? then AFTER_FUN_OPEN else AFTER_OPEN;
          pos, brackets := pos + 1, brackets + 1;
          return Ok(Some(TOpen));
        case LClose =>
          if flags.noBC { return Err(UnexpectedParens); }
          flags, brackets := AFTER_OPERAND, brackets - 1;
          if brackets < 0 { return Err(UnexpectedParens); }
          pos := pos + 1;
          return Ok(Some(TClose));
        case LColon =>
          if flags.noELSE { return Err(UnexpectedConditional); }
          pos, flags := pos + 1, AFTER_BRANCH;
          return Ok(Some(TElse));
        case LQuestion =>
          if flags.noIF { return Err(UnexpectedConditional); }
          pos, flags := pos + 1, AFTER_BRANCH;
          return Ok(Some(TIf));
        case _ => return Ok(None);
      }
    }

    method IsArgSep(d: Defs) returns (r: Result<Option<Token>>)
      requires Valid() && pos < |formula|
      modifies this
      ensures Valid() && formula == old(formula) && Seen(d, old(Here()), r, Here())
      ensures r == Ok(None) ==> formula[pos] != LComma
    {
      if formula[pos] != LComma { return Ok(None); }
      if flags.noSEP { return Err(UnexpectedArgSep); }
      pos, flags := pos + 1, AFTER_SEP;
      return Ok(Some(TSep));
    }

    // Constants by name first, then numbers.
    method IsValTok(d: Defs) returns (r: Result<Option<Token>>)
      requires Valid() && pos < |formula| && !IsCall(d, Here().rest)
      modifies this
      ensures Valid() && formula == old(formula) && Seen(d, old(Here()), r, Here())
      ensures r == Ok(None) ==> !formula[pos].LNum? && (formula[pos].LName? ==> formula[pos].name !in d.consts)
    {
      var l := formula[pos];
      if l.LName? && l.name in d.consts {
        if flags.noVAL { return Err(UnexpectedVal); }
        pos, flags := pos + 1, AFTER_OPERAND;
        return Ok(Some(TVal(d.consts[l.name])));
      }
      if l.LNum? {
        if flags.noVAL { return Err(UnexpectedVal); }
        pos, flags := pos + 1, AFTER_OPERAND;
        return Ok(Some(TVal(l.val)));
      }
      return Ok(None);
    }

    method IsVarTok(d: Defs) returns (r: Result<Option<Token>>)
      requires Valid() && pos < |formula| && !IsCall(d, Here().rest)
      requires formula[pos].LName? ==> formula[pos].name !in d.consts
      modifies this
      ensures Valid() && formula == old(formula) && Seen(d, old(Here()), r, Here())
      ensures r == Ok(None) ==> formula[pos].LName? ==> formula[pos].name !in d.vars
    {
      var l := formula[pos];
      if !l.LName? || l.name !in d.vars { return Ok(None); }
      if flags.noVAR { return Err(UnexpectedVar); }
      pos, flags := pos + 1, AFTER_OPERAND;
      return Ok(Some(TVar(d.vars[l.name])));
    }

    // Asks the recognisers in turn; a lexeme none of them takes is an error.
    method Recognisers(d: Defs) returns (r: Result<Option<Token>>)
      requires Valid()
      modifies this
      ensures Valid() && formula == old(formula) && Seen(d, old(Here()), r, Here())
      ensures r == Ok(None) ==> Recognise(d, old(Here())) == Err(UnassignableToken)
    {
      hide Seen;
      r := IsEOF(d);
      if r != Ok(None) { return; }
      SeenNothing(d);
      r := IsFunTok(d);
      if r != Ok(None) { return; }
      SeenNothing(d);
      r := IsBuiltIn(d);
      if r != Ok(None) { return; }
      SeenNothing(d);
      r := IsArgSep(d);
      if r != Ok(None) { return; }
      SeenNothing(d);
      r := IsValTok(d);
      if r != Ok(None) { return; }
      SeenNothing(d);
      r := IsVarTok(d);
      if r != Ok(None) { return; }
      SeenNothing(d);
      r := IsInfixOpTok(d);
      if r != Ok(None) { return; }
      SeenNothing(d);
    }

    lemma SeenNothing(d: Defs)
      ensures forall c, c' :: Seen(d, c, Ok(None), c') <==> c == c'
    {
    }

    // Strictly advances by one lexeme, unless at the end of the formula.
    method ReadNextToken(d: Defs) returns (r: Result<Token>)
      requires Valid()
      modifies this
      ensures Valid() && formula == old(formula)
      ensures r.Ok? <==> Recognise(d, old(Here())).Ok?
      ensures r.Ok? ==>
                var k := Recognise(d, old(Here())).value;
                r.value == k.token && Here() == Advance(old(Here()), k)
      ensures r.Err? ==> Recognise(d, old(Here())) == Err(r.error)
    {
      var seen := Recognisers(d);
      if seen.Err? { return Err(seen.error); }
      if seen.value.None? { return Err(UnassignableToken); }
      last := seen.value;
      return Ok(seen.value.value);
    }
  }
}
