/** The evaluator as eval.c keeps it: a cursor into the string, one peeked token, and eval_error. */
module EvalCore {
  import opened EvalState
  import opened EvalProof

  class Evaluator<V(0,!new)> {
    const a: Algebra<V>
    const s: string
    var p: nat
    var lastp: nat
    var peekTok: Token
    var tokBuf: string
    var evalError: Option<EvalError>

    /** A peeked token is the one from lastp on, and the cursor stands behind it. */
    ghost predicate Valid()
      reads this
    {
      && Recognised(s) && p <= |s|
      && (peekTok != Invalid ==> lastp <= |s| && NextToken(s, lastp) == Lexed(peekTok, p) && tokBuf == TextOf(peekTok))
    }

    /** The position up to which tokens have been used. */
    ghost function Pos(): (q: nat)
      requires Valid()
      reads this
      ensures q <= |s|
    {
      if peekTok != Invalid then lastp else p
    }

    constructor (a0: Algebra<V>, s0: string)
      requires Recognised(s0)
      ensures Valid() && a == a0 && s == s0 && Pos() == 0 && evalError == None
    {
      a, s, p, lastp, peekTok, tokBuf, evalError := a0, s0, 0, 0, Invalid, "", None;
    }

    /** The identifier loop of get_next_token. */
    method ReadIdent(i: nat)
      requires i <= |s|
      modifies `p
      ensures p == IdentEnd(s, i)
    {
      p := i;
      while p < |s| && (KindOf(s[p]).IdentChar? || KindOf(s[p]).ConstChar?)
        invariant p <= |s| && IdentEnd(s, p) == IdentEnd(s, i)
        decreases |s| - p
      {
        p := p + 1;
      }
    }

    /** The numeric literal loop. */
    method ReadConst(i: nat)
      requires i <= |s|
      modifies `p
      ensures p == ConstEnd(s, i, '\0', false)
    {
      hide ConstTakes, Lower;
      p := i;
      var lastChar, allowHex := '\0', false;
      while p < |s| && ConstTakes(s[p], lastChar, allowHex)
        invariant p <= |s| && ConstEnd(s, p, lastChar, allowHex) == ConstEnd(s, i, '\0', false)
        decreases |s| - p
      {
        lastChar := Lower(s[p]);
        if s[p] == 'x' || s[p] == 'X' { allowHex := true; }
        p := p + 1;
      }
    }

    method SkipWhite()
      requires p <= |s|
      modifies `p
      ensures p == SkipBlanks(s, old(p)) && p <= |s|
    {
      while p < |s| && KindOf(s[p]).BlankChar?
        invariant p <= |s| && SkipBlanks(s, p) == SkipBlanks(s, old(p))
        decreases |s| - p
      {
        p := p + 1;
      }
    }

    /** get_next_token with an empty peek slot. */
    method ScanToken() returns (tok: Token)
      requires p <= |s| && peekTok == Invalid
      modifies `p, `tokBuf
      ensures p <= |s| && Lexed(tok, p) == NextToken(s, old(p)) && tokBuf == TextOf(tok)
    {
      hide KindOf, ConstTakes;
      SkipWhite();
      tokBuf := "";
      if p == |s| { return Eof; }
      var i := p;
      match KindOf(s[i]) {
        case IdentChar =>
          ReadIdent(i + 1);
          tok, tokBuf := Ident(s[i..p]), s[i..p];
        case ConstChar =>
          ReadConst(i + 1);
          tok, tokBuf := Const(s[i..p]), s[i..p];
        case OpChar(t) =>
          p := p + 1;
          tok := t;
          OperatorText(s[i]);
        case _ =>
          p := p + 1;
          tok := Invalid;
      }
    }

    /** get_next_token: hand out the peeked token if there is one. */
    method GetNextToken() returns (tok: Token)
      requires Valid()
      modifies `p, `tokBuf, `peekTok
      ensures Valid() && peekTok == Invalid && tok != Invalid && tokBuf == TextOf(tok)
      ensures NextToken(s, old(Pos())) == Lexed(tok, Pos())
    {
      hide NextToken, Recognised;
      if peekTok != Invalid {
        tok := peekTok;
        peekTok := Invalid;
        return;
      }
      NeverInvalid(s, p);
      tok := ScanToken();
    }

    /** peek_next_token */
    method PeekNextToken() returns (tok: Token)
      requires Valid()
      modifies `p, `lastp, `tokBuf, `peekTok
      ensures Valid() && peekTok == tok && tok != Invalid && Pos() == old(Pos())
      ensures NextToken(s, old(Pos())).tok == tok
    {
      hide NextToken, Recognised;
      if peekTok == Invalid {
        lastp := p;
        peekTok := GetNextToken();
      }
      return peekTok;
    }

    /** The call left the value, or eval_error, and the position that r says. */
    ghost predicate Gives(r: Result<V>, v: V)
      reads this
    {
      match r
      case Ok(w, end) => evalError == None && Valid() && v == w && Pos() == end
      case Err(why) => evalError == Some(why)
    }

    /** factor() */
    method DoFactor() returns (v: V)
      requires Valid() && evalError == None
      modifies this
      ensures Gives(Factor(a, s, old(Pos())), v)
      decreases |s| - Pos(), 0
    {
      hide NextToken, Recognised;
      v := *;
      var tok := PeekNextToken();
      if tok == Open {
        tok := GetNextToken();
        v := DoExpr();
        if evalError != None { return; }
        tok := PeekNextToken();
        if tok != Close {
          evalError := Some(UnmatchedParen);
          return;
        }
        tok := GetNextToken();
      } else if tok == Minus {
        tok := GetNextToken();
        v := DoFactor();
        if evalError != None { return; }
        v := a.neg(v);
      } else if tok.Ident? {
        tok := GetNextToken();
        if a.ident(tokBuf).None? {
          evalError := Some(UndefinedVariable);
          return;
        }
        v := a.ident(tokBuf).value;
      } else if tok.Const? {
        tok := GetNextToken();
        if a.constant(tokBuf).None? {
          evalError := Some(BadConst);
          return;
        }
        v := a.constant(tokBuf).value;
      } else {
        evalError := Some(NoTerm);
      }
    }

    /** term() */
    method DoTerm() returns (v: V)
      requires Valid() && evalError == None
      modifies this
      ensures Gives(Term(a, s, old(Pos())), v)
      decreases |s| - Pos(), 1
    {
      hide NextToken, Recognised, Factor;
      v := DoFactor();
      if evalError != None { return; }
      var tok := PeekNextToken();
      if tok == Mult {
        tok := GetNextToken();
        var w := DoTerm();
        if evalError != None { return; }
        v := a.mult(v, w);
      } else if tok == Div {
        tok := GetNextToken();
        var w := DoTerm();
        if evalError != None { return; }
        if a.isZero(w) {
          evalError := Some(DivideByZero);
          return;
        }
        v := a.div(v, w);
      }
    }

    /** expr() */
    method DoExpr() returns (v: V)
      requires Valid() && evalError == None
      modifies this
      ensures Gives(Expr(a, s, old(Pos())), v)
      ensures evalError == None ==> peekTok != Invalid
      decreases |s| - Pos(), 2
    {
      hide NextToken, Recognised, Term;
      v := DoTerm();
      if evalError != None { return; }
      var tok := PeekNextToken();
      if tok == Plus {
        tok := GetNextToken();
        var w := DoExpr();
        if evalError != None { return; }
        v := a.add(v, w);
      } else if tok == Minus {
        tok := GetNextToken();
        var w := DoExpr();
        if evalError != None { return; }
        v := a.sub(v, w);
      }
    }

    /** eval_expr: on success endp is the end of the text used, where the scan for the next token began. */
    method EvalExpr() returns (v: V, endp: nat)
      requires Recognised(s)
      modifies this
      ensures match Expr(a, s, 0)
              case Ok(w, end) => evalError == None && v == w && endp == end
              case Err(why) => evalError == Some(why)
    {
      hide NextToken, Recognised, Expr;
      evalError, p, tokBuf, peekTok := None, 0, "", Invalid;
      v := DoExpr();
      endp := if peekTok != Invalid then lastp else p;
    }
  }

  /** What the token buffer holds for a token the grammar looks at. */
  function TextOf(t: Token): string {
    match t
    case Ident(x) => x
    case Const(x) => x
    case _ => ""
  }

  lemma OperatorText(c: char)
    requires KindOf(c).OpChar?
    ensures TextOf(KindOf(c).tok) == ""
  {
  }
}
