/**
 The parser (compiler/parser/parser.go, expression_parsing.go,
 data_type_parsing.go): two tokens over a lexer.  Each method advances as the
 grammar functions say, over the very tokens the lexer reads from the text.
 */
module Parsers {
  import opened Wrappers
  import opened Lexing
  import opened Parsing
  import P = Printing
  import Lexers

  /** Tokens no expression goes past. */
  predicate Stops(t: Token) { t.kind == Eof || t.kind == Illegal }

  /** The token list of a text: as far as the first token no expression goes past. */
  ghost predicate Whole(ts: seq<Token>) {
    && ts != [] && Stops(ts[|ts| - 1])
    && forall k :: 0 <= k < |ts| - 1 ==> !Stops(ts[k])
  }

  // ------------------------------------------------- every text has such a list

  lemma SkipsForward(s: string, i: nat)
    ensures i >= |s| ==> SpaceEnd(s, i) == i
  {
  }

  lemma OperatorWidth(s: string, i: nat)
    ensures OperatorAt(s, i).Some? ==> i < |s| && OperatorAt(s, i).value.1 > 0 && OperatorAt(s, i).value.0 != Eof
  {
  }

  /** A token takes at least one character, unless it is illegal. */
  lemma TokenAdvances(s: string, i: nat, f: Fsm, line: int)
    ensures var x := TokenHere(s, i, f, line); x.token.kind == Illegal || x.at > i
    ensures var x := TokenHere(s, i, f, line); i >= |s| ==> x.token.kind == Eof
  {
    hide OperatorAt, StringFrom, KeywordOf;
    OperatorWidth(s, i);
    if IsLetter(At(s, i)) { assert WordEnd(s, i) == WordEnd(s, i + 1); }
    if At(s, i) == '@' { assert VariableEnd(s, i) == VariableEnd(s, i + 1); }
    if IsDigit(At(s, i)) { assert DigitsEnd(s, i) == DigitsEnd(s, i + 1); }
    StringAdvances(s, i);
  }

  lemma {:induction false} StringAdvances(s: string, i: nat)
    ensures StringAt(s, i).1 > i
  {
    FromAdvances(s, At(s, i), i + 1);
  }

  lemma {:induction false} FromAdvances(s: string, quote: char, j: nat)
    ensures StringFrom(s, quote, j).1 > j
    decreases if j < |s| then |s| - j else 0
  {
    hide Unit;
    var (text, last) := Unit(s, j);
    if !(At(s, last + 1) == quote || At(s, last + 2) == NUL || j >= |s|) { FromAdvances(s, quote, last + 1); }
  }

  lemma {:induction false} NextAdvances(s: string, i: nat, f: Fsm, line: int)
    ensures var x := NextFrom(s, i, f, line); Stops(x.token) || (x.at > i && i < |s|)
    decreases if i < |s| then |s| - i else 0
  {
    hide TokenHere;
    var j := SpaceEnd(s, i);
    SkipsForward(s, i);
    if At(s, j) == '#' {
      CommentEnds(s, j);
      NextAdvances(s, LineEnd(s, j), Reset(s, i, f), line + Newlines(s, i, j));
    } else {
      TokenAdvances(s, j, Reset(s, i, f), line + Newlines(s, i, j));
    }
  }

  /** From any place on, the tokens come to one that ends the list. */
  lemma {:induction false} TokensEnd(s: string, p: Place) returns (n: nat)
    ensures n > 0 && Whole(TokensFrom(s, p, n))
    decreases if p.at < |s| then |s| - p.at else 0
  {
    hide Follow;
    if Stops(Follow(s, p).token) {
      n := 1;
    } else {
      FollowAdvances(s, p);
      n := TokensEnd(s, Behind(s, p));
      var rest := TokensFrom(s, Behind(s, p), n);
      n := n + 1;
      assert TokensFrom(s, p, n) == [Follow(s, p).token] + rest;
    }
  }

  lemma FollowAdvances(s: string, p: Place)
    ensures Stops(Follow(s, p).token) || (Behind(s, p).at > p.at && p.at < |s|)
  {
    hide NextFrom;
    NextAdvances(s, p.at, p.fsm, p.line);
  }

  // ------------------------------------------------------- expressions stay inside

  /** The last token of an expression is not the one that ends the list. */
  lemma {:induction false} ParseStays(ts: seq<Token>, i: nat, prec: nat)
    requires Whole(ts)
    ensures Parse(ts, i, prec).Some? ==> Parse(ts, i, prec).value.1 < |ts| - 1
    decreases |ts| - i, 2
  {
    hide Prefix, Loop;
    if i < |ts| {
      PrefixStays(ts, i);
      if Prefix(ts, i).Some? { LoopStays(ts, Prefix(ts, i).value.1, prec, Prefix(ts, i).value.0); }
    }
  }

  lemma {:induction false} PrefixStays(ts: seq<Token>, i: nat)
    requires Whole(ts) && i < |ts|
    ensures Prefix(ts, i).Some? ==> Prefix(ts, i).value.1 < |ts| - 1
    decreases |ts| - i, 1
  {
    hide Parse, Elements, ParseInt, StartsArgument;
    if IsPrefix(ts[i].kind) && i + 1 < |ts| {
      ParseStays(ts, i + 1, if ts[i].kind == Bang then BANG_PREFIX else MINUS_PREFIX);
    }
  }

  lemma {:induction false} LoopStays(ts: seq<Token>, i: nat, prec: nat, left: Tree)
    requires Whole(ts) && i < |ts| - 1
    ensures Loop(ts, i, prec, left).Some? ==> Loop(ts, i, prec, left).value.1 < |ts| - 1
    decreases |ts| - i, 0
  {
    hide Parse, GoesOn, Prec, IsInfix, IsOtherInfix;
    var peek := Tok(ts, i + 1);
    var p := if peek.kind == And || peek.kind == Or then NORMAL else Prec(peek);
    ParseStays(ts, i + 2, p);
    if Parse(ts, i + 2, p).Some? {
      LoopStays(ts, Parse(ts, i + 2, p).value.1, prec, Bin(peek.kind, left, Parse(ts, i + 2, p).value.0));
    }
  }

  // --------------------------------------------------------------- the parser

  /** parseInfixExpression with the operator as the current token. */
  function InfixAt(ts: seq<Token>, i: nat, left: Tree): Parsed
    requires i < |ts|
  {
    var op := ts[i];
    if op.literal == "*" && Tok(ts, i + 1).literal == "*" then None
    else
      match Parse(ts, i + 1, if op.kind == And || op.kind == Or then NORMAL else Prec(op))
      case None => None
      case Some((right, j)) => Some((Bin(op.kind, left, right), j))
  }

  /** parseArrayElements behind an element that ends at i. */
  function ElementsFrom(ts: seq<Token>, i: nat, elems: seq<Tree>): Option<(seq<Tree>, nat)> {
    if i + 1 < |ts| && ts[i + 1].kind == Comma then Elements(ts, i + 2, elems) else Some((elems, i))
  }

  class Parser {
    const lexer: Lexers.Lexer
    var curToken: Token
    var peekToken: Token
    ghost const ts: seq<Token>   // the text's tokens
    ghost var i: nat             // which of them is the current one

    ghost predicate Valid()
      reads this, lexer
    {
      && Synced() && Whole(ts)
      && i < |ts| && curToken == ts[i] && (i + 1 < |ts| ==> peekToken == ts[i + 1])
    }

    /** The list is the text's, and the lexer is two tokens ahead. */
    ghost predicate Synced()
      reads this, lexer
    {
      && lexer.Valid() && ts == TokensFrom(lexer.input, START, |ts|)
      && lexer.Here() == P.After(lexer.input, START, i + 2)
    }

    /** The result and the position that a grammar function gives. */
    ghost predicate Gives(r: Option<Tree>, spec: Parsed)
      reads this
    {
      && (r.Some? <==> spec.Some?)
      && (r.Some? ==> r.value == spec.value.0 && i == spec.value.1)
    }

    /** A parser that has read its first two tokens. */
    constructor (text: string)
      ensures Valid() && i == 0 && lexer.input == text && fresh(lexer)
    {
      var l := new Lexers.Lexer(text);
      ghost var n := TokensEnd(text, START);
      var first := l.NextToken();
      var second := l.NextToken();
      lexer, curToken, peekToken := l, first, second;
      ts, i := TokensFrom(text, START, n), 0;
      new;
      hide Follow, Behind;
      AfterOne(text, START, 0);
      AfterOne(text, START, 1);
      TokenAt(text, START, n, 0);
      if n > 1 { TokenAt(text, START, n, 1); }
    }

    method NextToken()
      requires Valid() && i + 1 < |ts|
      modifies this, lexer
      ensures Valid() && i == old(i) + 1
    {
      hide Follow;
      curToken := peekToken;
      peekToken := lexer.NextToken();
      i := i + 1;
      AfterOne(lexer.input, START, i + 1);
      if i + 1 < |ts| { TokenAt(lexer.input, START, |ts|, i + 1); }
    }

    method ExpectPeek(k: Kind) returns (ok: bool)
      requires Valid() && i + 1 < |ts| && k != Eof && k != Illegal
      modifies this, lexer
      ensures Valid() && ok == (ts[old(i) + 1].kind == k) && i == if ok then old(i) + 1 else old(i)
    {
      ok := peekToken.kind == k;
      if ok { NextToken(); }
    }

    method ParseExpression(precedence: nat) returns (r: Option<Tree>)
      requires Valid()
      modifies this, lexer
      ensures Valid() && i >= old(i) && Gives(r, Parse(ts, old(i), precedence))
      decreases |ts| - i, 5
    {
      hide Whole, Parse, Prefix, Loop, GoesOn, IsInfix, IsOtherInfix, InfixAt, Prec, SameLine, IsKeywordOperator;
      hide Synced;
      ghost var start := i;
      ParseUnfolds(ts, start, precedence);
      PrefixStays(ts, start);
      var left := ParsePrefix();
      if left.None? { return None; }
      var leftExp := left.value;
      while peekToken.kind != Semicolon && (precedence < Prec(peekToken) || IsKeywordOperator(peekToken))
          && SameLine(curToken, peekToken)
        invariant Valid() && start <= i < |ts| - 1
        invariant Parse(ts, start, precedence) == Loop(ts, i, precedence, leftExp)
        decreases |ts| - i
      {
        LoopContinues(ts, i, precedence, leftExp);
        if IsOtherInfix(peekToken) && !IsInfix(peekToken.kind) { return None; }
        if !IsInfix(peekToken.kind) { return Some(leftExp); }
        r := ParseOperator(leftExp);
        if r.None? { return None; }
        leftExp := r.value;
      }
      LoopEndsHere(ts, i, precedence, leftExp);
      if peekToken.kind == Semicolon { NextToken(); }
      r := Some(leftExp);
    }

    /** The operator behind an operand, and its right operand. */
    method ParseOperator(left: Tree) returns (r: Option<Tree>)
      requires Valid() && i + 1 < |ts| && IsInfix(peekToken.kind)
      modifies this, lexer
      ensures Valid() && i > old(i) && Gives(r, InfixAt(ts, old(i) + 1, left))
      ensures r.Some? ==> i < |ts| - 1
      decreases |ts| - i, 1
    {
      hide Whole, Parse, IsInfix, InfixAt, Synced;
      NextToken();
      InfixInside(ts, i);
      InfixStays(ts, i, left);
      r := ParseInfixExpression(left);
    }

    method ParseInfixExpression(left: Tree) returns (r: Option<Tree>)
      requires Valid() && i + 1 < |ts|
      modifies this, lexer
      ensures Valid() && i >= old(i) && Gives(r, InfixAt(ts, old(i), left))
      decreases |ts| - i, 0
    {
      hide Whole, Parse, Synced;
      var operator := curToken;
      var preced := Prec(curToken);
      if curToken.literal == "*" && peekToken.literal == "*" { return None; }
      if operator.kind == And || operator.kind == Or { preced := NORMAL; }
      NextToken();
      var right := ParseExpression(preced);
      r := if right.None? then None else Some(Bin(operator.kind, left, right.value));
    }

    /** The prefix function registered for the current token. */
    method ParsePrefix() returns (r: Option<Tree>)
      requires Valid()
      modifies this, lexer
      ensures Valid() && i >= old(i) && Gives(r, Prefix(ts, old(i)))
      decreases |ts| - i, 4
    {
      hide Synced, Parse, GroupAt, ArrayAt, StartsArgument, SameLine, ParseInt;
      var t := curToken;
      if t.kind == Ident {
        r := if StartsArgument(peekToken) && SameLine(t, peekToken) then None else Some(Name(t.literal));
      } else if t.kind == IntTok {
        var v := ParseInt(t.literal);
        r := if v.None? then None else Some(Int(t.literal, v.value));
      } else if t.kind == Str {
        r := Some(Quote(t.literal));
      } else if t.kind == True {
        r := Some(Truth(true));
      } else if t.kind == False {
        r := Some(Truth(false));
      } else if t.kind == NilTok {
        r := Some(Nothing);
      } else if IsPrefix(t.kind) {
        r := ParsePrefixExpression();
      } else if t.kind == LParen {
        r := ParseGroupedExpression();
      } else if t.kind == LBracket {
        r := ParseArrayExpression();
      } else {
        r := None;
      }
    }

    method ParsePrefixExpression() returns (r: Option<Tree>)
      requires Valid() && IsPrefix(curToken.kind)
      modifies this, lexer
      ensures Valid() && i >= old(i)
      ensures Gives(r, match Parse(ts, old(i) + 1, if ts[old(i)].kind == Bang then BANG_PREFIX else MINUS_PREFIX)
                       case None => None
                       case Some((right, j)) => Some((Pre(ts[old(i)].kind, right), j)))
      decreases |ts| - i, 3
    {
      hide Parse, Synced;
      var prevToken := curToken;
      NextToken();
      var right;
      if prevToken.kind == Bang {
        right := ParseExpression(BANG_PREFIX);
      } else {
        right := ParseExpression(MINUS_PREFIX);
      }
      r := if right.None? then None else Some(Pre(prevToken.kind, right.value));
    }

    method ParseGroupedExpression() returns (r: Option<Tree>)
      requires Valid() && curToken.kind == LParen
      modifies this, lexer
      ensures Valid() && i >= old(i) && Gives(r, GroupAt(ts, old(i)))
      decreases |ts| - i, 3
    {
      hide Parse, Synced;
      NextToken();
      ParseStays(ts, i, NORMAL);
      r := ParseExpression(NORMAL);
      if r.None? { return None; }
      var ok := ExpectPeek(RParen);
      if !ok { return None; }
    }

    method ParseArrayExpression() returns (r: Option<Tree>)
      requires Valid() && curToken.kind == LBracket
      modifies this, lexer
      ensures Valid() && i >= old(i) && Gives(r, ArrayAt(ts, old(i)))
      decreases |ts| - i, 3
    {
      hide Parse, Elements, Synced;
      var elems := ParseArrayElements();
      r := if elems.None? then None else Some(List(elems.value));
    }

    method ParseArrayElements() returns (r: Option<seq<Tree>>)
      requires Valid() && curToken.kind == LBracket
      modifies this, lexer
      ensures Valid() && i >= old(i)
      ensures r.Some? <==> ArrayAt(ts, old(i)).Some?
      ensures r.Some? ==> ArrayAt(ts, old(i)) == Some((List(r.value), i))
      decreases |ts| - i, 2
    {
      hide Whole, Parse, Elements, Synced, ArrayAt, Tok;
      OpenIsInside(ts, i);
      ArrayUnfolds(ts, i);
      if peekToken.kind == RBracket {
        NextToken();
        return Some([]);
      }
      r := ParseMoreElements();
      if r.None? { return; }
      var ok := ExpectPeek(RBracket);
      if !ok { r := None; }
    }

    /** The elements and the commas between them. */
    method ParseMoreElements() returns (r: Option<seq<Tree>>)
      requires Valid() && i + 1 < |ts|
      modifies this, lexer
      ensures Valid() && i > old(i)
      ensures r.None? ==> Elements(ts, old(i) + 1, []) == None
      ensures r.Some? ==> i < |ts| - 1 && Elements(ts, old(i) + 1, []) == Some((r.value, i))
      decreases |ts| - i, 1
    {
      hide Whole, Parse, Elements, ElementsFrom, Synced;
      ghost var start := i;
      r := ParseElement([]);
      if r.None? { return; }
      while peekToken.kind == Comma
        invariant Valid() && start < i < |ts| - 1 && r.Some?
        invariant Elements(ts, start + 1, []) == ElementsFrom(ts, i, r.value)
        decreases |ts| - i
      {
        BehindComma(ts, i, r.value);
        NextToken();
        OpenIsInside(ts, i);
        r := ParseElement(r.value);
        if r.None? { return; }
      }
      BehindLast(ts, i, r.value);
    }

    /** The expression behind the current token, as one more element. */
    method ParseElement(elems: seq<Tree>) returns (r: Option<seq<Tree>>)
      requires Valid() && i + 1 < |ts|
      modifies this, lexer
      ensures Valid() && i > old(i)
      ensures r.None? ==> Elements(ts, old(i) + 1, elems) == None
      ensures r.Some? ==> i < |ts| - 1 && Elements(ts, old(i) + 1, elems) == ElementsFrom(ts, i, r.value)
      decreases |ts| - i, 0
    {
      hide Whole, Parse, Elements, Synced;
      NextToken();
      ElementsUnfold(ts, i, elems);
      ParseStays(ts, i, NORMAL);
      var e := ParseExpression(NORMAL);
      r := if e.None? then None else Some(elems + [e.value]);
    }

    /** parseExpressionStatement. */
    method ParseExpressionStatement() returns (r: Option<Tree>)
      requires Valid()
      modifies this, lexer
      ensures Valid() && Gives(r, ParseStatement(ts, old(i)))
    {
      hide Parse, Synced;
      if curToken.kind == Ident || curToken.kind == InstanceVar {
        r := ParseExpression(LOWEST);
      } else {
        r := ParseExpression(NORMAL);
      }
    }
  }

  lemma OpenIsInside(ts: seq<Token>, i: nat)
    requires Whole(ts) && i < |ts| && !Stops(ts[i])
    ensures i + 1 < |ts|
  {
  }

  lemma InfixInside(ts: seq<Token>, i: nat)
    requires Whole(ts) && i < |ts| && IsInfix(ts[i].kind)
    ensures i + 1 < |ts|
  {
  }

  lemma ParseUnfolds(ts: seq<Token>, i: nat, prec: nat)
    requires i < |ts|
    ensures Prefix(ts, i).None? ==> Parse(ts, i, prec) == None
    ensures Prefix(ts, i).Some? ==> Parse(ts, i, prec) == Loop(ts, Prefix(ts, i).value.1, prec, Prefix(ts, i).value.0)
  {
    hide Prefix, Loop;
  }

  lemma LoopContinues(ts: seq<Token>, i: nat, prec: nat, left: Tree)
    requires Whole(ts) && i < |ts| - 1
    requires
      var peek := ts[i + 1];
      && peek.kind != Semicolon && (prec < Prec(peek) || IsKeywordOperator(peek)) && SameLine(ts[i], peek)
    ensures !IsInfix(ts[i + 1].kind) ==>
              Loop(ts, i, prec, left) == if IsOtherInfix(ts[i + 1]) then None else Some((left, i))
    ensures IsInfix(ts[i + 1].kind) ==>
              && (InfixAt(ts, i + 1, left).None? ==> Loop(ts, i, prec, left) == None)
              && (InfixAt(ts, i + 1, left).Some? ==>
                    Loop(ts, i, prec, left)
                      == Loop(ts, InfixAt(ts, i + 1, left).value.1, prec, InfixAt(ts, i + 1, left).value.0))
  {
    hide Parse, Prec, IsInfix, IsOtherInfix, SameLine, IsKeywordOperator;
  }

  lemma LoopEndsHere(ts: seq<Token>, i: nat, prec: nat, left: Tree)
    requires Whole(ts) && i < |ts| - 1
    requires
      var peek := ts[i + 1];
      !(peek.kind != Semicolon && (prec < Prec(peek) || IsKeywordOperator(peek)) && SameLine(ts[i], peek))
    ensures Loop(ts, i, prec, left) == Some((left, if ts[i + 1].kind == Semicolon then i + 1 else i))
  {
    hide Parse, Prec, IsInfix, IsOtherInfix, SameLine, IsKeywordOperator;
  }

  lemma InfixStays(ts: seq<Token>, i: nat, left: Tree)
    requires Whole(ts) && i < |ts|
    ensures InfixAt(ts, i, left).Some? ==> InfixAt(ts, i, left).value.1 < |ts| - 1
  {
    hide Parse, Prec;
    var op := ts[i];
    ParseStays(ts, i + 1, if op.kind == And || op.kind == Or then NORMAL else Prec(op));
  }

  lemma BehindComma(ts: seq<Token>, i: nat, elems: seq<Tree>)
    requires i + 1 < |ts| && ts[i + 1].kind == Comma
    ensures ElementsFrom(ts, i, elems) == Elements(ts, i + 2, elems)
  {
  }

  lemma BehindLast(ts: seq<Token>, i: nat, elems: seq<Tree>)
    requires i + 1 < |ts| && ts[i + 1].kind != Comma
    ensures ElementsFrom(ts, i, elems) == Some((elems, i))
  {
  }

  lemma ArrayUnfolds(ts: seq<Token>, i: nat)
    requires i + 1 < |ts|
    ensures ts[i + 1].kind == RBracket ==> ArrayAt(ts, i) == Some((List([]), i + 1))
    ensures ts[i + 1].kind != RBracket && Elements(ts, i + 1, []).None? ==> ArrayAt(ts, i) == None
    ensures ts[i + 1].kind != RBracket && Elements(ts, i + 1, []).Some? ==>
              var es, j := Elements(ts, i + 1, []).value.0, Elements(ts, i + 1, []).value.1;
              ArrayAt(ts, i) == if j + 1 < |ts| && ts[j + 1].kind == RBracket then Some((List(es), j + 1)) else None
  {
    hide Elements;
  }

  lemma ElementsUnfold(ts: seq<Token>, i: nat, before: seq<Tree>)
    requires i < |ts|
    ensures Parse(ts, i, NORMAL).None? ==> Elements(ts, i, before) == None
    ensures Parse(ts, i, NORMAL).Some? ==>
              Elements(ts, i, before)
                == ElementsFrom(ts, Parse(ts, i, NORMAL).value.1, before + [Parse(ts, i, NORMAL).value.0])
  {
    hide Parse;
  }

  lemma {:induction false} AfterOne(s: string, p: Place, n: nat)
    ensures P.After(s, p, n + 1) == Behind(s, P.After(s, p, n))
    decreases n
  {
    hide Behind;
    if n > 0 { AfterOne(s, Behind(s, p), n - 1); }
  }

  lemma {:induction false} TokenAt(s: string, p: Place, n: nat, k: nat)
    requires k < n
    ensures TokensFrom(s, p, n)[k] == Follow(s, P.After(s, p, k)).token
    decreases k
  {
    hide Follow, Behind;
    if k > 0 { TokenAt(s, Behind(s, p), n - 1, k - 1); }
  }
}
