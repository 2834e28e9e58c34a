/** The expression evaluator of eval.c: its tokens, and recursive descent by position, over any arithmetic. */
module EvalState {

  datatype Option<+T> = None | Some(value: T)

  /** enum eval_token_t; white space is never returned. */
  datatype Token = Invalid | Eof | Ident(text: string) | Const(text: string)
                 | Plus | Minus | Mult | Div | Open | Close

  datatype CharKind = InvalidChar | IdentChar | ConstChar | BlankChar | OpChar(tok: Token)

  /** init_tok_map */
  function KindOf(c: char): CharKind {
    if 'a' <= c <= 'z' || 'A' <= c <= 'Z' || c == '_' || c == '$' then IdentChar
    else if '0' <= c <= '9' || c == '.' then ConstChar
    else if c == '+' then OpChar(Plus)
    else if c == '-' then OpChar(Minus)
    else if c == '*' then OpChar(Mult)
    else if c == '/' then OpChar(Div)
    else if c == '(' then OpChar(Open)
    else if c == ')' then OpChar(Close)
    else if c == ' ' || c == '\t' then BlankChar
    else InvalidChar
  }

  function Lower(c: char): char { if 'A' <= c <= 'Z' then c + 32 as char else c }

  function SkipBlanks(s: string, i: nat): (j: nat)
    requires i <= |s|
    ensures i <= j <= |s|
    decreases |s| - i
  {
    if i < |s| && KindOf(s[i]).BlankChar? then SkipBlanks(s, i + 1) else i
  }

  function IdentEnd(s: string, i: nat): (j: nat)
    requires i <= |s|
    ensures i <= j <= |s|
    decreases |s| - i
  {
    if i < |s| && (KindOf(s[i]).IdentChar? || KindOf(s[i]).ConstChar?) then IdentEnd(s, i + 1) else i
  }

  /** Does the constant loop take this character, after `last` and with hexadecimal digits allowed or not? */
  predicate ConstTakes(c: char, last: char, hex: bool) {
    || KindOf(c).ConstChar? || ((c == '-' || c == '+') && last == 'e')
    || Lower(c) == 'e' || Lower(c) == 'x' || ('a' <= Lower(c) <= 'f' && hex)
  }

  function ConstEnd(s: string, i: nat, last: char, hex: bool): (j: nat)
    requires i <= |s|
    ensures i <= j <= |s|
    decreases |s| - i
  {
    if i < |s| && ConstTakes(s[i], last, hex) then ConstEnd(s, i + 1, Lower(s[i]), hex || s[i] == 'x' || s[i] == 'X')
    else i
  }

  datatype Lexed = Lexed(tok: Token, end: nat)

  /** get_next_token when nothing has been peeked: the token from position p on, and where it ends. */
  function NextToken(s: string, p: nat): (t: Lexed)
    requires p <= |s|
    ensures p <= t.end <= |s| && (t.tok != Eof ==> p < t.end)
  {
    var i := SkipBlanks(s, p);
    if i == |s| then Lexed(Eof, i)
    else
      match KindOf(s[i])
      case IdentChar => Lexed(Ident(s[i..IdentEnd(s, i + 1)]), IdentEnd(s, i + 1))
      case ConstChar => Lexed(Const(s[i..ConstEnd(s, i + 1, '\0', false)]), ConstEnd(s, i + 1, '\0', false))
      case OpChar(t) => Lexed(t, i + 1)
      case _ => Lexed(Invalid, i + 1)
  }

  /** Every character is one the token map knows. */
  predicate Recognised(s: string) { forall i :: 0 <= i < |s| ==> KindOf(s[i]) != InvalidChar }

  // ---- values ----

  /** The typed arithmetic of the evaluator, the conversion of constants, and the user's identifier function. */
  datatype Algebra<!V> = Algebra(add: (V, V) -> V, sub: (V, V) -> V, mult: (V, V) -> V, div: (V, V) -> V,
                                 neg: V -> V, isZero: V -> bool,
                                 constant: string -> Option<V>, ident: string -> Option<V>)

  datatype EvalError = UnmatchedParen | NoTerm | DivideByZero | BadConst | UndefinedVariable

  /** A value and the position after the last token used, or eval_error. */
  datatype Result<+V> = Ok(v: V, end: nat) | Err(why: EvalError)

  // ---- recursive descent ----

  /** factor() */
  function Factor<V>(a: Algebra<V>, s: string, p: nat): (r: Result<V>)
    requires p <= |s|
    ensures r.Ok? ==> p < r.end <= |s|
    decreases |s| - p, 0
  {
    var t := NextToken(s, p);
    match t.tok
    case Open =>
      var r := Expr(a, s, t.end);
      if r.Err? then r
      else if NextToken(s, r.end).tok != Close then Err(UnmatchedParen)
      else Ok(r.v, NextToken(s, r.end).end)
    case Minus =>
      var r := Factor(a, s, t.end);
      if r.Err? then r else Ok(a.neg(r.v), r.end)
    case Ident(x) => if a.ident(x).None? then Err(UndefinedVariable) else Ok(a.ident(x).value, t.end)
    case Const(x) => if a.constant(x).None? then Err(BadConst) else Ok(a.constant(x).value, t.end)
    case _ => Err(NoTerm)
  }

  /** term() */
  function Term<V>(a: Algebra<V>, s: string, p: nat): (r: Result<V>)
    requires p <= |s|
    ensures r.Ok? ==> p < r.end <= |s|
    decreases |s| - p, 1
  {
    var l := Factor(a, s, p);
    if l.Err? then l
    else
      var t := NextToken(s, l.end);
      if t.tok != Mult && t.tok != Div then l
      else
        var r := Term(a, s, t.end);
        if r.Err? then r
        else if t.tok == Mult then Ok(a.mult(l.v, r.v), r.end)
        else if a.isZero(r.v) then Err(DivideByZero)
        else Ok(a.div(l.v, r.v), r.end)
  }

  /** expr() */
  function Expr<V>(a: Algebra<V>, s: string, p: nat): (r: Result<V>)
    requires p <= |s|
    ensures r.Ok? ==> p < r.end <= |s|
    decreases |s| - p, 2
  {
    var l := Term(a, s, p);
    if l.Err? then l
    else
      var t := NextToken(s, l.end);
      if t.tok != Plus && t.tok != Minus then l
      else
        var r := Expr(a, s, t.end);
        if r.Err? then r
        else if t.tok == Plus then Ok(a.add(l.v, r.v), r.end)
        else Ok(a.sub(l.v, r.v), r.end)
  }

  // ---- the documented grammar ----

  /** Parse trees. */
  datatype Tree = Name(x: string) | Number(x: string) | Paren(e: Tree) | Negate(e: Tree)
                | Times(l: Tree, r: Tree) | Over(l: Tree, r: Tree) | Sum(l: Tree, r: Tree) | Less(l: Tree, r: Tree)

  /** <expr> <- <factor> | <factor> +|- <expr> */
  predicate IsExpr(t: Tree)
    decreases t, 2
  {
    match t
    case Sum(l, r) => IsTerm(l) && IsExpr(r)
    case Less(l, r) => IsTerm(l) && IsExpr(r)
    case _ => IsTerm(t)
  }

  /** <factor> <- <term> | <term> *|/ <factor>; this is term() in the code. */
  predicate IsTerm(t: Tree)
    decreases t, 1
  {
    match t
    case Times(l, r) => IsFactor(l) && IsTerm(r)
    case Over(l, r) => IsFactor(l) && IsTerm(r)
    case _ => IsFactor(t)
  }

  /** <term> <- ( <expr> ) | - <term> | <const> | <symbol>; this is factor() in the code. */
  predicate IsFactor(t: Tree)
    decreases t, 0
  {
    match t
    case Name(_) => true
    case Number(_) => true
    case Paren(e) => IsExpr(e)
    case Negate(e) => IsFactor(e)
    case _ => false
  }

  /** The tokens a tree derives. */
  function Yield(t: Tree): seq<Token> {
    match t
    case Name(x) => [Ident(x)]
    case Number(x) => [Const(x)]
    case Paren(e) => [Open] + Yield(e) + [Close]
    case Negate(e) => [Minus] + Yield(e)
    case Times(l, r) => Yield(l) + [Mult] + Yield(r)
    case Over(l, r) => Yield(l) + [Div] + Yield(r)
    case Sum(l, r) => Yield(l) + [Plus] + Yield(r)
    case Less(l, r) => Yield(l) + [Minus] + Yield(r)
  }

  /** Its value: undefined if a constant does not convert, a name is not defined or a divisor is zero. */
  function ValueOf<V>(a: Algebra<V>, t: Tree): Option<V> {
    match t
    case Name(x) => a.ident(x)
    case Number(x) => a.constant(x)
    case Paren(e) => ValueOf(a, e)
    case Negate(e) =>
      var v := ValueOf(a, e);
      if v.None? then None else Some(a.neg(v.value))
    case Times(l, r) => Both(a, ValueOf(a, l), ValueOf(a, r), a.mult)
    case Sum(l, r) => Both(a, ValueOf(a, l), ValueOf(a, r), a.add)
    case Less(l, r) => Both(a, ValueOf(a, l), ValueOf(a, r), a.sub)
    case Over(l, r) =>
      var v := ValueOf(a, r);
      if v.None? || a.isZero(v.value) then None else Both(a, ValueOf(a, l), v, a.div)
  }

  function Both<V>(a: Algebra<V>, x: Option<V>, y: Option<V>, f: (V, V) -> V): Option<V> {
    if x.None? || y.None? then None else Some(f(x.value, y.value))
  }

  /** Where the given tokens end, if they are the next ones from p on. */
  function Scan(s: string, p: nat, ts: seq<Token>): (r: Option<nat>)
    requires p <= |s|
    ensures r.Some? ==> p <= r.value <= |s|
    decreases |ts|
  {
    if ts == [] then Some(p)
    else if NextToken(s, p).tok != ts[0] then None
    else Scan(s, NextToken(s, p).end, ts[1..])
  }
}
