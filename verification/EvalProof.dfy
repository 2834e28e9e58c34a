/** The evaluator succeeds exactly on what the documented grammar derives, with the value of the parse tree, and
    stops right after the text it used. */
module EvalProof {
  import opened EvalState

  predicate IsOperator(t: Token) { t == Plus || t == Minus || t == Mult || t == Div }

  lemma {:induction false} ScanConcat(s: string, p: nat, x: seq<Token>, y: seq<Token>)
    requires p <= |s|
    ensures Scan(s, p, x + y) == if Scan(s, p, x).None? then None else Scan(s, Scan(s, p, x).value, y)
    decreases |x|
  {
    hide NextToken;
    if x == [] {
      assert x + y == y;
    } else {
      assert (x + y)[0] == x[0] && (x + y)[1..] == x[1..] + y;
      if NextToken(s, p).tok == x[0] { ScanConcat(s, NextToken(s, p).end, x[1..], y); }
    }
  }

  lemma ScanOne(s: string, p: nat, t: Token)
    requires p <= |s|
    ensures Scan(s, p, [t]) == if NextToken(s, p).tok == t then Some(NextToken(s, p).end) else None
  {
    hide NextToken;
    assert [t][1..] == [];
    if NextToken(s, p).tok == t { assert Scan(s, NextToken(s, p).end, []) == Some(NextToken(s, p).end); }
  }

  /** Scanning an operand, an operator and another operand. */
  lemma ScanThree(s: string, p: nat, x: seq<Token>, t: Token, y: seq<Token>)
    requires p <= |s|
    ensures Scan(s, p, x + [t] + y) ==
            if Scan(s, p, x).None? then None
            else var m := Scan(s, p, x).value;
                 if NextToken(s, m).tok != t then None else Scan(s, NextToken(s, m).end, y)
  {
    hide Scan, NextToken;
    ScanConcat(s, p, x + [t], y);
    ScanConcat(s, p, x, [t]);
    if Scan(s, p, x).Some? { ScanOne(s, Scan(s, p, x).value, t); }
  }

  lemma ScanPrefix(s: string, p: nat, t: Token, y: seq<Token>)
    requires p <= |s|
    ensures Scan(s, p, [t] + y) == if NextToken(s, p).tok != t then None else Scan(s, NextToken(s, p).end, y)
  {
    hide Scan, NextToken;
    ScanConcat(s, p, [t], y);
    ScanOne(s, p, t);
  }

  // ---- what is accepted is derived ----

  /** t derives the tokens from p to the end of r, and r has its value. */
  predicate Accounts<V(==)>(a: Algebra<V>, s: string, p: nat, t: Tree, v: V, end: nat)
    requires p <= |s|
  {
    Scan(s, p, Yield(t)) == Some(end) && ValueOf(a, t) == Some(v)
  }

  lemma {:induction false} FactorSound<V>(a: Algebra<V>, s: string, p: nat) returns (t: Tree)
    requires p <= |s| && Factor(a, s, p).Ok?
    ensures IsFactor(t) && Accounts(a, s, p, t, Factor(a, s, p).v, Factor(a, s, p).end)
    decreases |s| - p, 0
  {
    hide NextToken, Scan;
    var f := NextToken(s, p);
    match f.tok {
      case Open =>
        var e := ExprSound(a, s, f.end);
        t := Paren(e);
        var m := Expr(a, s, f.end).end;
        ScanPrefix(s, p, Open, Yield(e) + [Close]);
        ScanConcat(s, f.end, Yield(e), [Close]);
        ScanOne(s, m, Close);
        assert Yield(t) == [Open] + (Yield(e) + [Close]);
      case Minus =>
        var e := FactorSound(a, s, f.end);
        t := Negate(e);
        ScanPrefix(s, p, Minus, Yield(e));
      case Ident(x) =>
        t := Name(x);
        ScanOne(s, p, Ident(x));
      case Const(x) =>
        t := Number(x);
        ScanOne(s, p, Const(x));
    }
  }

  lemma {:induction false} TermSound<V>(a: Algebra<V>, s: string, p: nat) returns (t: Tree)
    requires p <= |s| && Term(a, s, p).Ok?
    ensures IsTerm(t) && Accounts(a, s, p, t, Term(a, s, p).v, Term(a, s, p).end)
    ensures NextToken(s, Term(a, s, p).end).tok != Mult && NextToken(s, Term(a, s, p).end).tok != Div
    decreases |s| - p, 1
  {
    hide NextToken, Scan;
    var l := FactorSound(a, s, p);
    var f := NextToken(s, Factor(a, s, p).end);
    if f.tok != Mult && f.tok != Div {
      t := l;
    } else {
      var r := TermSound(a, s, f.end);
      t := if f.tok == Mult then Times(l, r) else Over(l, r);
      ScanThree(s, p, Yield(l), f.tok, Yield(r));
    }
  }

  lemma {:induction false} ExprSound<V>(a: Algebra<V>, s: string, p: nat) returns (t: Tree)
    requires p <= |s| && Expr(a, s, p).Ok?
    ensures IsExpr(t) && Accounts(a, s, p, t, Expr(a, s, p).v, Expr(a, s, p).end)
    ensures !IsOperator(NextToken(s, Expr(a, s, p).end).tok)
    decreases |s| - p, 2
  {
    hide NextToken, Scan;
    var l := TermSound(a, s, p);
    var f := NextToken(s, Term(a, s, p).end);
    if f.tok != Plus && f.tok != Minus {
      t := l;
    } else {
      var r := ExprSound(a, s, f.end);
      t := if f.tok == Plus then Sum(l, r) else Less(l, r);
      ScanThree(s, p, Yield(l), f.tok, Yield(r));
    }
  }

  // ---- what is derived is accepted ----

  lemma {:induction false} FactorComplete<V>(a: Algebra<V>, s: string, p: nat, t: Tree, v: V, q: nat)
    requires p <= |s| && IsFactor(t) && Accounts(a, s, p, t, v, q)
    ensures Factor(a, s, p) == Ok(v, q)
    decreases t, 0
  {
    hide NextToken, Scan;
    match t {
      case Name(x) => ScanOne(s, p, Ident(x));
      case Number(x) => ScanOne(s, p, Const(x));
      case Negate(e) =>
        ScanPrefix(s, p, Minus, Yield(e));
        FactorComplete(a, s, NextToken(s, p).end, e, ValueOf(a, e).value, q);
      case Paren(e) =>
        assert Yield(t) == [Open] + (Yield(e) + [Close]);
        ScanPrefix(s, p, Open, Yield(e) + [Close]);
        var m := NextToken(s, p).end;
        ScanConcat(s, m, Yield(e), [Close]);
        var e1 := Scan(s, m, Yield(e)).value;
        ScanOne(s, e1, Close);
        ExprComplete(a, s, m, e, v, e1);
    }
  }

  lemma {:induction false} TermComplete<V>(a: Algebra<V>, s: string, p: nat, t: Tree, v: V, q: nat)
    requires p <= |s| && IsTerm(t) && Accounts(a, s, p, t, v, q)
    requires q <= |s| && NextToken(s, q).tok != Mult && NextToken(s, q).tok != Div
    ensures Term(a, s, p) == Ok(v, q)
    decreases t, 1
  {
    hide NextToken, Scan;
    if t.Times? || t.Over? {
      var op := if t.Times? then Mult else Div;
      ScanThree(s, p, Yield(t.l), op, Yield(t.r));
      var m := Scan(s, p, Yield(t.l)).value;
      FactorComplete(a, s, p, t.l, ValueOf(a, t.l).value, m);
      TermComplete(a, s, NextToken(s, m).end, t.r, ValueOf(a, t.r).value, q);
    } else {
      FactorComplete(a, s, p, t, v, q);
    }
  }

  lemma {:induction false} ExprComplete<V>(a: Algebra<V>, s: string, p: nat, t: Tree, v: V, q: nat)
    requires p <= |s| && IsExpr(t) && Accounts(a, s, p, t, v, q)
    requires q <= |s| && !IsOperator(NextToken(s, q).tok)
    ensures Expr(a, s, p) == Ok(v, q)
    decreases t, 2
  {
    hide NextToken, Scan;
    if t.Sum? || t.Less? {
      var op := if t.Sum? then Plus else Minus;
      ScanThree(s, p, Yield(t.l), op, Yield(t.r));
      var m := Scan(s, p, Yield(t.l)).value;
      TermComplete(a, s, p, t.l, ValueOf(a, t.l).value, m);
      ExprComplete(a, s, NextToken(s, m).end, t.r, ValueOf(a, t.r).value, q);
    } else {
      TermComplete(a, s, p, t, v, q);
    }
  }

  /** The evaluator succeeds exactly when some parse tree of the grammar derives a run of tokens from the start
      that is not followed by an operator, every constant in it converts, every name is defined and no divisor
      is zero; then it returns that tree's value and stops right after those tokens. */
  lemma EvaluatorIsGrammar<V(!new)>(a: Algebra<V>, s: string, v: V, q: nat)
    requires q <= |s|
    ensures Expr(a, s, 0) == Ok(v, q) <==>
            !IsOperator(NextToken(s, q).tok) && exists t :: IsExpr(t) && Accounts(a, s, 0, t, v, q)
  {
    hide NextToken, Scan, Yield, ValueOf, Expr;
    if Expr(a, s, 0) == Ok(v, q) {
      var t := ExprSound(a, s, 0);
      assert IsExpr(t) && Accounts(a, s, 0, t, v, q);
    }
    if !IsOperator(NextToken(s, q).tok) {
      forall t | IsExpr(t) && Accounts(a, s, 0, t, v, q) ensures Expr(a, s, 0) == Ok(v, q) {
        ExprComplete(a, s, 0, t, v, q);
      }
    }
  }

  /** On recognised characters no token is the sentinel that marks an empty peek slot. */
  lemma NeverInvalid(s: string, p: nat)
    requires Recognised(s) && p <= |s|
    ensures NextToken(s, p).tok != Invalid
  {
    StopsAtNonBlank(s, p);
  }

  lemma {:induction false} StopsAtNonBlank(s: string, p: nat)
    requires p <= |s|
    ensures var i := SkipBlanks(s, p); i < |s| ==> !KindOf(s[i]).BlankChar?
    decreases |s| - p
  {
    hide KindOf;
    if p < |s| && KindOf(s[p]).BlankChar? { StopsAtNonBlank(s, p + 1); }
  }
}
