/**
 Lexer and parser at work on printed text: they read every printed tree and every
 printed value as what was printed.
 */
module ReadBack {
  import opened Wrappers
  import opened Lexing
  import opened Parsing
  import opened Parsers
  import P = Printing
  import G = Grammar
  import R = Rebuilding
  import Machine

  lemma NotLonger(s: string, p: Place, m: nat, n: nat)
    requires Whole(TokensFrom(s, p, m)) && Whole(TokensFrom(s, p, n))
    ensures n <= m
  {
    hide Follow, TokensFrom;
    if m < n {
      Inside(s, p, n, m - 1);
      Inside(s, p, m, m - 1);
    }
  }

  /** A text has one token list. */
  lemma WholeUnique(s: string, p: Place, m: nat, n: nat)
    requires Whole(TokensFrom(s, p, m)) && Whole(TokensFrom(s, p, n))
    ensures m == n
  {
    hide TokensFrom, Whole;
    NotLonger(s, p, m, n);
    NotLonger(s, p, n, m);
  }

  lemma Inside(s: string, p: Place, n: nat, k: nat)
    requires k < n
    ensures TokensFrom(s, p, n)[k] == Follow(s, P.After(s, p, k)).token
  {
    TokenAt(s, p, n, k);
  }

  ghost predicate NoStop(ts: seq<Token>) {
    forall k :: 0 <= k < |ts| ==> !Stops(ts[k])
  }

  lemma {:induction false} ExprNoStop(e: G.Expr)
    requires G.Shape(e)
    ensures NoStop(G.Tokens(e))
  {
    hide G.Level, Prec, ParseInt;
    match e
    case Leaf(t) =>
    case Paren(_, inner, _) => ExprNoStop(inner);
    case Sign(_, x) => ExprNoStop(x);
    case Binary(_, l, r) => ExprNoStop(l); ExprNoStop(r);
  }

  lemma {:induction false} ValueNoStop(v: Machine.Value)
    requires R.Rebuildable(v)
    ensures NoStop(R.ValueTokens(v))
    decreases v, 0
  {
    if v.ArrV? { JoinedNoStop(v.elems, |v.elems|); }
  }

  lemma {:induction false} JoinedNoStop(vs: seq<Machine.Value>, n: nat)
    requires n <= |vs| && R.Rebuildable(Machine.ArrV(vs))
    ensures NoStop(R.JoinedTokens(vs, n))
    decreases vs, n
  {
    if n > 0 {
      JoinedNoStop(vs, n - 1);
      ValueNoStop(vs[n - 1]);
    }
  }

  lemma WholeWithEnd(ts: seq<Token>)
    requires NoStop(ts)
    ensures Whole(ts + [G.END])
  {
  }

  /** Reading a printed tree gives the tree. */
  method ReadPrinted(t: Tree) returns (r: Option<Tree>)
    requires P.Printable(t)
    ensures r == Some(t)
  {
    hide P.Printed, TokensFrom, P.Written, G.Tokens, Whole, NoStop, ParseStatement, P.Printable, G.Shape;
    var p := new Parser(P.Printed(t));
    ghost var ts := G.Tokens(P.Written(t));
    P.PrintedTreesReadBack(t);
    P.WrittenShape(t);
    ExprNoStop(P.Written(t));
    WholeWithEnd(ts);
    WholeUnique(P.Printed(t), START, |p.ts|, |ts| + 1);
    r := p.ParseExpressionStatement();
  }

  /** Reading a printed value gives the value's tree. */
  method ReadInspected(v: Machine.Value) returns (r: Option<Tree>)
    requires R.Rebuildable(v)
    ensures r == Some(R.ValueTree(v))
  {
    hide R.InspectValue, TokensFrom, R.ValueTokens, R.ValueTree, Whole, NoStop, ParseStatement, R.Rebuildable;
    var p := new Parser(R.InspectValue(v));
    R.TextParses(v);
    ValueNoStop(v);
    WholeWithEnd(R.ValueTokens(v));
    WholeUnique(R.InspectValue(v), START, |p.ts|, |R.ValueTokens(v)| + 1);
    r := p.ParseExpressionStatement();
  }
}
