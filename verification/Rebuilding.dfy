/**
 Values print as source that rebuilds them (Inspect in vm/array.go, vm/string.go,
 vm/integer.go): lexing, parsing, compiling and running the printed text of a
 value gives the value.
 */
module Rebuilding {
  import opened Wrappers
  import opened Lexing
  import opened Parsing
  import opened Printing
  import opened Machine
  import A = Ast
  import E = Escaping
  import G = Grammar
  import L = Layout
  import Ev = Evaluator
  import W = WellFormed
  import Correctness
  import Optimised
  import Pipeline

  // ---------------------------------------------------------------- printing

  /** strconv.Itoa of a number that is not negative. */
  function Decimal(n: nat): (s: string)
    ensures |s| > 0
  {
    if n < 10 then [('0' as int + n) as char] else Decimal(n / 10) + [('0' as int + n % 10) as char]
  }

  function InspectValue(v: Value): string
    decreases v, 0
  {
    match v
    case IntV(n) => if n < 0 then "-" + Decimal(-n) else Decimal(n)
    case BoolV(b) => if b then "true" else "false"
    case NilV => "nil"
    case StrV(s) => E.Inspect(s)
    case ArrV(vs) => "[" + Joined(vs, |vs|) + "]"
    case ObjV(_) => ""
  }

  /** The elements' texts with commas between them. */
  function Joined(vs: seq<Value>, n: nat): string
    requires n <= |vs|
    decreases vs, n
  {
    if n == 0 then ""
    else (if n == 1 then "" else Joined(vs, n - 1) + ", ") + InspectValue(vs[n - 1])
  }

  /** Booleans and nil print as their words, an array as its elements with a comma and a space between them, in
      brackets. */
  lemma InspectForms(vs: seq<Value>, v: Value)
    ensures InspectValue(BoolV(true)) == "true" && InspectValue(BoolV(false)) == "false" && InspectValue(NilV) == "nil"
    ensures InspectValue(ArrV([])) == ['[', ']'] && InspectValue(ArrV([v])) == ['['] + InspectValue(v) + [']']
    ensures
      var before, after := InspectValue(ArrV(vs)), InspectValue(ArrV(vs + [v]));
      |before| >= 2 && (vs != [] ==> after == before[..|before| - 1] + [',', ' '] + InspectValue(v) + [']'])
  {
    InspectWords();
    InspectArray([]);
    InspectArray([v]);
    InspectArray(vs);
    InspectArray(vs + [v]);
    JoinedWith([], v);
    JoinedWith(vs, v);
    hide InspectValue, Joined;
    assert [] + [v] == [v];
  }

  lemma InspectWords()
    ensures InspectValue(BoolV(true)) == "true" && InspectValue(BoolV(false)) == "false" && InspectValue(NilV) == "nil"
    ensures Joined([], 0) == ""
  {
  }

  lemma InspectArray(vs: seq<Value>)
    ensures InspectValue(ArrV(vs)) == ['['] + Joined(vs, |vs|) + [']']
  {
    hide Joined;
  }

  lemma JoinedWith(vs: seq<Value>, v: Value)
    ensures Joined(vs + [v], |vs| + 1) ==
      if vs == [] then InspectValue(v) else Joined(vs, |vs|) + [',', ' '] + InspectValue(v)
  {
    hide InspectValue;
    JoinedMore(vs, v, |vs|);
    assert (vs + [v])[|vs|] == v;
    assert "" + InspectValue(v) == InspectValue(v);
  }

  lemma {:induction false} JoinedMore(vs: seq<Value>, v: Value, n: nat)
    requires n <= |vs|
    ensures Joined(vs + [v], n) == Joined(vs, n)
    decreases n
  {
    hide InspectValue;
    if n > 0 { JoinedMore(vs, v, n - 1); }
  }

  /** Arrays, to any depth, of integers above the smallest, booleans, nil and strings without a hidden NUL. */
  predicate Rebuildable(v: Value)
    decreases v
  {
    match v
    case IntV(n) => -0x7FFF_FFFF_FFFF_FFFF <= n <= 0x7FFF_FFFF_FFFF_FFFF
    case BoolV(_) => true
    case NilV => true
    case StrV(s) => E.NothingHidden(s)
    case ArrV(vs) => forall i :: 0 <= i < |vs| ==> Rebuildable(vs[i])
    case ObjV(_) => false
  }

  function IntToken(n: nat): Token { Token(IntTok, Decimal(n), 0) }

  const OPEN := Token(LBracket, "[", 0)
  const CLOSE := Token(RBracket, "]", 0)
  const COMMA := Token(Comma, ",", 0)
  const MINUS := Token(Minus, "-", 0)

  function ValueTokens(v: Value): (ts: seq<Token>)
    ensures |ts| > 0
    decreases v, 0
  {
    match v
    case IntV(n) => if n < 0 then [MINUS, IntToken(-n)] else [IntToken(n)]
    case BoolV(b) => [if b then Token(True, "true", 0) else Token(False, "false", 0)]
    case NilV => [Token(NilTok, "nil", 0)]
    case StrV(s) => [Token(Str, s, 0)]
    case ArrV(vs) => [OPEN] + JoinedTokens(vs, |vs|) + [CLOSE]
    case ObjV(_) => [Token(Eof, "", 0)]
  }

  function JoinedTokens(vs: seq<Value>, n: nat): seq<Token>
    requires n <= |vs|
    decreases vs, n
  {
    if n == 0 then [] else (if n == 1 then [] else JoinedTokens(vs, n - 1) + [COMMA]) + ValueTokens(vs[n - 1])
  }

  function ValueTree(v: Value): Tree
    decreases v, 0
  {
    match v
    case IntV(n) => if n < 0 then Pre(Minus, Int(Decimal(-n), -n)) else Int(Decimal(n), n)
    case BoolV(b) => Truth(b)
    case NilV => Nothing
    case StrV(s) => Quote(s)
    case ArrV(vs) => List(ValueTrees(vs, |vs|))
    case ObjV(_) => Nothing
  }

  function ValueTrees(vs: seq<Value>, n: nat): (r: seq<Tree>)
    requires n <= |vs|
    ensures |r| == n
    decreases vs, n
  {
    if n == 0 then [] else ValueTrees(vs, n - 1) + [ValueTree(vs[n - 1])]
  }

  // ------------------------------------------------------------------ numbers

  lemma DigitChar(d: nat)
    requires d < 10
    ensures IsDigit(('0' as int + d) as char) && DigitValue(('0' as int + d) as char) == d
  {
  }

  lemma {:induction false} DecimalDigits(n: nat)
    ensures AllDigits(Decimal(n)) && Digits(Decimal(n), |Decimal(n)|, 10) == Some(n)
    ensures Decimal(n)[0] == '0' ==> n == 0
    ensures n == 0 ==> |Decimal(n)| == 1
    decreases n
  {
    DigitChar(n % 10);
    var c := ('0' as int + n % 10) as char;
    if n < 10 {
      assert Digits([c], 0, 10) == Some(0);
    } else {
      DecimalDigits(n / 10);
      DigitsPrefix(Decimal(n / 10), [c], |Decimal(n / 10)|, 10);
    }
  }

  lemma {:induction false} DigitsPrefix(a: string, b: string, n: nat, base: int)
    requires n <= |a|
    ensures Digits(a + b, n, base) == Digits(a, n, base)
    decreases n
  {
    if n > 0 { DigitsPrefix(a, b, n - 1, base); }
  }

  /** A printed number is read as that number, as it has no leading zero, or is too large. */
  lemma DecimalParses(n: nat)
    ensures ParseInt(Decimal(n)) == if n <= 0x7FFF_FFFF_FFFF_FFFF then Some(n) else None
  {
    DecimalDigits(n);
  }

  /** A number in base eight. */
  function OctalText(n: nat): (s: string)
    ensures |s| > 0
  {
    if n < 8 then [('0' as int + n) as char] else OctalText(n / 8) + [('0' as int + n % 8) as char]
  }

  lemma {:induction false} OctalDigits(n: nat)
    ensures Digits(OctalText(n), |OctalText(n)|, 8) == Some(n)
    decreases n
  {
    DigitChar(n % 8);
    var c := ('0' as int + n % 8) as char;
    if n < 8 {
      assert Digits([c], 0, 8) == Some(0);
    } else {
      OctalDigits(n / 8);
      DigitsPrefix(OctalText(n / 8), [c], |OctalText(n / 8)|, 8);
    }
  }

  /** Digits behind a zero are read in base eight. */
  lemma OctalParses(n: nat)
    ensures ParseInt("0" + OctalText(n)) == if n <= 0x7FFF_FFFF_FFFF_FFFF then Some(n) else None
  {
    OctalDigits(n);
    var s := "0" + OctalText(n);
    assert s[1..] == OctalText(n) && s[0] == '0';
  }

  /** A digit sequence is a number exactly if all its characters are digits of the base. */
  lemma {:induction false} DigitsExactly(s: string, n: nat, base: nat)
    requires n <= |s| && base <= 10
    ensures Digits(s, n, base).Some? <==> forall k :: 0 <= k < n ==> '0' as int <= s[k] as int < '0' as int + base
    decreases n
  {
    if n > 0 { DigitsExactly(s, n - 1, base); }
  }

  /** So digits behind a zero are no number if there is an 8 or a 9 among them. */
  lemma NoOctal(s: string)
    requires s != "" && exists k :: 0 <= k < |s| && !('0' <= s[k] <= '7')
    ensures ParseInt("0" + s) == None
  {
    DigitsExactly(s, |s|, 8);
    assert ("0" + s)[1..] == s && ("0" + s)[0] == '0';
  }

  // ------------------------------------------------------------------- lexing

  /** The text of a value is read as its tokens. */
  lemma {:induction false} ReadsValue(s: string, p: Place, q: nat, v: Value)
    requires Rebuildable(v) && Before(s, p, q) && E.Stands(s, q, InspectValue(v))
    requires Closes(At(s, q + |InspectValue(v)|))
    ensures Reads(s, p, ValueTokens(v), q + |InspectValue(v)|)
    decreases v, 2
  {
    hide Reads, Before, E.Stands, Closes, At, E.NothingHidden, E.Inspect, Decimal, Joined, JoinedTokens;
    match v
    case IntV(n) => if n < 0 { ReadsNegative(s, p, q, -n); } else { ReadsDecimal(s, p, q, n); }
    case BoolV(b) => if b { ReadsKeyword(s, p, q, "true", True); } else { ReadsKeyword(s, p, q, "false", False); }
    case NilV => ReadsKeyword(s, p, q, "nil", NilTok);
    case StrV(t) => ReadsQuoted(s, p, q, t);
    case ArrV(vs) => ReadsArray(s, p, q, vs);
  }

  lemma ReadsDecimal(s: string, p: Place, q: nat, n: nat)
    requires Before(s, p, q) && E.Stands(s, q, Decimal(n)) && Closes(At(s, q + |Decimal(n)|))
    ensures Reads(s, p, [IntToken(n)], q + |Decimal(n)|)
  {
    hide Reads, Decimal;
    DecimalDigits(n);
    ReadsNumber(s, p, q, Decimal(n));
  }

  lemma ReadsNegative(s: string, p: Place, q: nat, n: nat)
    requires Before(s, p, q) && E.Stands(s, q, "-" + Decimal(n)) && Closes(At(s, q + 1 + |Decimal(n)|))
    ensures Reads(s, p, [MINUS, IntToken(n)], q + 1 + |Decimal(n)|)
  {
    hide Reads, Decimal, Closes, Digits, OperatorAt;
    E.StandsSplit(s, q, "-", Decimal(n));
    DecimalDigits(n);
    E.StandsAt(s, q + 1, Decimal(n), 0);
    assert IsDigit(At(s, q + 1));
    SignText(s, q, Minus);
    ReadsOperator(s, p, q, Minus, "-");
    var p1 := After(s, p, 1);
    ReadsPlace(s, p, [MINUS], q + 1);
    ReadsDecimal(s, p1, q + 1, n);
    ReadsBoth(s, p, [MINUS], q + 1, [IntToken(n)], q + 1 + |Decimal(n)|);
    assert [MINUS] + [IntToken(n)] == [MINUS, IntToken(n)];
  }

  lemma ReadsKeyword(s: string, p: Place, q: nat, word: string, k: Kind)
    requires (word == "true" && k == True) || (word == "false" && k == False) || (word == "nil" && k == NilTok)
    requires Before(s, p, q) && E.Stands(s, q, word) && Closes(At(s, q + |word|))
    ensures Reads(s, p, [Token(k, word, 0)], q + |word|)
  {
    hide Reads, TokenHere, E.Stands;
    forall i | q <= i < q + |word| ensures i < |s| && IsWordChar(s[i]) {
      E.StandsAt(s, q, word, i - q);
      StandsInside(s, q, word, i);
    }
    assert q + |word| <= |s| by { StandsInside(s, q, word, q); }
    WordStops(s, q, |word|);
    StandsText(s, q, word);
    E.StandsAt(s, q, word, 0);
    KeywordHere(s, q, word, k);
    PlainChar(s, q);
    ReadsOne(s, p, q);
  }

  lemma StandsInside(s: string, q: nat, word: string, i: nat)
    requires E.Stands(s, q, word) && q <= i < q + |word|
    ensures i < |s| && q + |word| <= |s| && At(s, i) == s[i]
  {
  }

  lemma KeywordHere(s: string, q: nat, word: string, k: Kind)
    requires (word == "true" && k == True) || (word == "false" && k == False) || (word == "nil" && k == NilTok)
    requires At(s, q) == word[0] && WordEnd(s, q) == q + |word| && Lexing.Text(s, q, q + |word|) == word
    requires Closes(At(s, q + |word|))
    ensures TokenHere(s, q, Initial, 0) == Lexed(Token(k, word, 0), q + |word|, Initial, 0)
  {
    hide TokenHere, Lexing.WordToken, WordEnd, Lexing.Text;
    PlainChar(s, q);
    LetterHere(s, q);
    KeywordToken(word, k, q + |word|);
  }

  /** At a small letter stands a word. */
  lemma LetterHere(s: string, q: nat)
    requires 'a' <= At(s, q) <= 'z' && OperatorAt(s, q) == None
    ensures TokenHere(s, q, Initial, 0)
      == Lexing.WordToken(Lexing.Text(s, q, Lexing.IdentEnd(s, q)), Lexing.IdentEnd(s, q), Initial, 0)
  {
    hide OperatorAt, Lexing.IdentEnd, Lexing.Text, Lexing.WordToken, StringAt, Lexing.QuotedToken, Lexing.ColonToken;
  }

  lemma KeywordToken(word: string, k: Kind, at: nat)
    requires (word == "true" && k == True) || (word == "false" && k == False) || (word == "nil" && k == NilTok)
    ensures Lexing.WordToken(word, at, Initial, 0) == Lexed(Token(k, word, 0), at, Initial, 0)
  {
  }

  lemma ReadsQuoted(s: string, p: Place, q: nat, t: string)
    requires E.NothingHidden(t) && Before(s, p, q) && E.Stands(s, q, E.Inspect(t))
    ensures Reads(s, p, [Token(Str, t, 0)], q + |E.Inspect(t)|)
  {
    hide Reads, E.Inspect, StringAt;
    QuotedReads(s, q, t);
    ReadsOne(s, p, q);
  }

  lemma QuotedReads(s: string, q: nat, t: string)
    requires E.NothingHidden(t) && E.Stands(s, q, E.Inspect(t))
    ensures At(s, q) == '"' && StringAt(s, q) == (t, q + |E.Inspect(t)|)
  {
    hide E.Inspect, E.Stands, StringFrom, E.EscapeAll;
    E.InspectIsMap(t);
    assert E.Inspect(t) == "\"" + (E.EscapeAll(t) + "\"");
    E.StandsSplit(s, q, "\"", E.EscapeAll(t) + "\"");
    E.StandsAt(s, q, "\"", 0);
    assert t[0..] == t;
    E.AfterChar(s, q + 1, t, 0);
    if t != "" { E.ReadsRest(s, q + 1, t, 0); }
  }

  lemma ReadsMark(s: string, p: Place, q: nat, text: string, k: Kind)
    requires (text == "[" && k == LBracket) || (text == "]" && k == RBracket) || (text == "," && k == Comma)
    requires Before(s, p, q) && E.Stands(s, q, text)
    ensures Reads(s, p, [Token(k, text, 0)], q + 1)
  {
    hide Reads;
    E.StandsAt(s, q, text, 0);
    ReadsOperator(s, p, q, k, text);
  }

  lemma {:induction false} ReadsArray(s: string, p: Place, q: nat, vs: seq<Value>)
    requires Rebuildable(ArrV(vs)) && Before(s, p, q) && E.Stands(s, q, "[" + Joined(vs, |vs|) + "]")
    ensures Reads(s, p, [OPEN] + JoinedTokens(vs, |vs|) + [CLOSE], q + |Joined(vs, |vs|)| + 2)
    decreases vs, |vs| + 1
  {
    hide Reads, E.Stands, Joined, JoinedTokens, Closes, At, Rebuildable;
    var n := |vs|;
    var end := q + 1 + |Joined(vs, n)|;
    E.StandsSplit(s, q, "[" + Joined(vs, n), "]");
    E.StandsSplit(s, q, "[", Joined(vs, n));
    E.StandsAt(s, end, "]", 0);
    ReadsMark(s, p, q, "[", LBracket);
    var p1 := After(s, p, 1);
    ReadsPlace(s, p, [OPEN], q + 1);
    BracketCloses(s, end);
    ReadsJoined(s, p1, q + 1, vs, n);
    ReadsBoth(s, p, [OPEN], q + 1, JoinedTokens(vs, n), end);
    var p2 := After(s, p, |[OPEN] + JoinedTokens(vs, n)|);
    ReadsPlace(s, p, [OPEN] + JoinedTokens(vs, n), end);
    ReadsMark(s, p2, end, "]", RBracket);
    ReadsBoth(s, p, [OPEN] + JoinedTokens(vs, n), end, [CLOSE], end + 1);
  }

  lemma BracketCloses(s: string, i: nat)
    requires At(s, i) == ']' || At(s, i) == ','
    ensures Closes(At(s, i))
  {
  }

  lemma ReadsNothing(s: string, p: Place)
    requires p.fsm != Method && p.line == 0
    ensures Reads(s, p, [], p.at)
  {
  }

  lemma {:induction false} ReadsJoined(s: string, p: Place, q: nat, vs: seq<Value>, n: nat)
    requires n <= |vs| && Rebuildable(ArrV(vs)) && p.at == q && Before(s, p, q)
    requires E.Stands(s, q, Joined(vs, n)) && Closes(At(s, q + |Joined(vs, n)|))
    ensures Reads(s, p, JoinedTokens(vs, n), q + |Joined(vs, n)|)
    decreases vs, n
  {
    hide Reads, E.Stands, Closes, At;
    if n == 0 {
      ReadsNothing(s, p);
    } else if n == 1 {
      assert Joined(vs, 1) == InspectValue(vs[0]) && JoinedTokens(vs, 1) == ValueTokens(vs[0]);
      ReadsValue(s, p, q, vs[0]);
    } else {
      ReadsNextElement(s, p, q, vs, n);
    }
  }

  lemma {:induction false} ReadsNextElement(s: string, p: Place, q: nat, vs: seq<Value>, n: nat)
    requires 1 < n <= |vs| && Rebuildable(ArrV(vs)) && p.at == q && Before(s, p, q)
    requires E.Stands(s, q, Joined(vs, n)) && Closes(At(s, q + |Joined(vs, n)|))
    ensures Reads(s, p, JoinedTokens(vs, n), q + |Joined(vs, n)|)
    decreases vs, n, 0
  {
    hide Reads, E.Stands, Closes, At, InspectValue, ValueTokens, Joined, JoinedTokens;
    var front, last := Joined(vs, n - 1), InspectValue(vs[n - 1]);
    assert Joined(vs, n) == front + ", " + last
        && JoinedTokens(vs, n) == JoinedTokens(vs, n - 1) + [COMMA] + ValueTokens(vs[n - 1])
      by { JoinedNext(vs, n); }
    var qc := q + |front|;
    E.StandsSplit(s, q, front + ", ", last);
    E.StandsSplit(s, q, front, ", ");
    assert ", " == "," + " ";
    E.StandsSplit(s, qc, ",", " ");
    E.StandsAt(s, qc, ",", 0);
    E.StandsAt(s, qc + 1, " ", 0);
    BracketCloses(s, qc);
    ReadsJoined(s, p, q, vs, n - 1);
    ReadsPlace(s, p, JoinedTokens(vs, n - 1), qc);
    var p1 := After(s, p, |JoinedTokens(vs, n - 1)|);
    ReadsMark(s, p1, qc, ",", Comma);
    ReadsBoth(s, p, JoinedTokens(vs, n - 1), qc, [COMMA], qc + 1);
    var p2 := After(s, p, |JoinedTokens(vs, n - 1) + [COMMA]|);
    ReadsPlace(s, p, JoinedTokens(vs, n - 1) + [COMMA], qc + 1);
    ReadsValue(s, p2, qc + 2, vs[n - 1]);
    ReadsBoth(s, p, JoinedTokens(vs, n - 1) + [COMMA], qc + 1, ValueTokens(vs[n - 1]), qc + 2 + |last|);
  }

  lemma JoinedNext(vs: seq<Value>, n: nat)
    requires 1 < n <= |vs|
    ensures Joined(vs, n) == Joined(vs, n - 1) + ", " + InspectValue(vs[n - 1])
    ensures JoinedTokens(vs, n) == JoinedTokens(vs, n - 1) + [COMMA] + ValueTokens(vs[n - 1])
  {
  }

  // ------------------------------------------------------------------ parsing

  /** The tokens of v stand at i, with something behind them that ends an element. */
  ghost predicate TokensStand(ts: seq<Token>, i: nat, vt: seq<Token>) {
    i + |vt| <= |ts| && ts[i..i + |vt|] == vt
  }

  predicate EndsElement(t: Token) {
    t.kind == Comma || t.kind == RBracket || t.kind == Eof
  }

  lemma TokensSplitAt(ts: seq<Token>, i: nat, a: seq<Token>, b: seq<Token>)
    requires TokensStand(ts, i, a + b)
    ensures TokensStand(ts, i, a) && TokensStand(ts, i + |a|, b)
  {
    assert ts[i..i + |a + b|][..|a|] == a;
    assert ts[i..i + |a + b|][|a|..] == b;
    assert ts[i..i + |a|] == ts[i..i + |a + b|][..|a|];
    assert ts[i + |a|..i + |a| + |b|] == ts[i..i + |a + b|][|a|..];
  }

  lemma TokenStands(ts: seq<Token>, i: nat, vt: seq<Token>, k: nat)
    requires TokensStand(ts, i, vt) && k < |vt|
    ensures i + k < |ts| && Tok(ts, i + k) == ts[i + k] == vt[k]
  {
    assert ts[i..i + |vt|][k] == ts[i + k];
  }

  lemma LoopEnds(ts: seq<Token>, i: nat, prec: nat, left: Tree)
    requires i < |ts| && EndsElement(Tok(ts, i + 1)) && prec >= NORMAL
    ensures Loop(ts, i, prec, left) == Some((left, i))
  {
    hide Parse;
  }

  /** A value's tokens are parsed as its tree. */
  lemma {:induction false} ParsesValue(ts: seq<Token>, i: nat, v: Value)
    requires Rebuildable(v) && TokensStand(ts, i, ValueTokens(v)) && EndsElement(Tok(ts, i + |ValueTokens(v)|))
    ensures Parse(ts, i, NORMAL) == Some((ValueTree(v), i + |ValueTokens(v)| - 1))
    decreases v, 2
  {
    hide Parse, Loop, Decimal, ParseInt, E.NothingHidden, JoinedTokens, ValueTrees, Tok;
    TokenStands(ts, i, ValueTokens(v), 0);
    match v
    case IntV(n) => if n < 0 { ParsesNegative(ts, i, -n); } else { ParsesInt(ts, i, n, NORMAL); }
    case BoolV(b) => ParsesWord(ts, i, v);
    case NilV => ParsesWord(ts, i, v);
    case StrV(_) => ParsesWord(ts, i, v);
    case ArrV(vs) => ParsesArray(ts, i, vs);
  }

  lemma ParsesInt(ts: seq<Token>, i: nat, n: nat, prec: nat)
    requires n <= MAX_INT && i < |ts| && ts[i] == IntToken(n) && EndsElement(Tok(ts, i + 1)) && prec >= NORMAL
    ensures Parse(ts, i, prec) == Some((Int(Decimal(n), n), i))
  {
    DecimalParses(n);
    LoopEnds(ts, i, prec, Int(Decimal(n), n));
    hide Loop, ParseInt, Decimal;
  }

  lemma ParsesNegative(ts: seq<Token>, i: nat, n: nat)
    requires n <= MAX_INT && TokensStand(ts, i, [MINUS, IntToken(n)]) && EndsElement(Tok(ts, i + 2))
    ensures Parse(ts, i, NORMAL) == Some((Pre(Minus, Int(Decimal(n), n)), i + 1))
  {
    hide Loop, Decimal, Parse;
    TokenStands(ts, i, [MINUS, IntToken(n)], 0);
    TokenStands(ts, i, [MINUS, IntToken(n)], 1);
    ParsesInt(ts, i + 1, n, MINUS_PREFIX);
    G.SignStep(ts, i, NORMAL, Int(Decimal(n), n), i + 1);
    LoopEnds(ts, i + 1, NORMAL, Pre(Minus, Int(Decimal(n), n)));
  }

  lemma ParsesWord(ts: seq<Token>, i: nat, v: Value)
    requires v.BoolV? || v.NilV? || v.StrV?
    requires i < |ts| && ts[i] == ValueTokens(v)[0] && EndsElement(Tok(ts, i + 1))
    ensures Parse(ts, i, NORMAL) == Some((ValueTree(v), i))
  {
    hide Loop, Parse, Prefix;
    WordPrefix(ts, i, v);
    PrefixThenLoop(ts, i, ValueTree(v), i);
    LoopEnds(ts, i, NORMAL, ValueTree(v));
  }

  lemma WordPrefix(ts: seq<Token>, i: nat, v: Value)
    requires v.BoolV? || v.NilV? || v.StrV?
    requires i < |ts| && ts[i] == ValueTokens(v)[0]
    ensures Prefix(ts, i) == Some((ValueTree(v), i))
  {
    hide Parse, GroupAt, ArrayAt, ParseInt, StartsArgument;
  }

  lemma {:induction false} ParsesArray(ts: seq<Token>, i: nat, vs: seq<Value>)
    requires Rebuildable(ArrV(vs)) && TokensStand(ts, i, [OPEN] + JoinedTokens(vs, |vs|) + [CLOSE])
    requires EndsElement(Tok(ts, i + |JoinedTokens(vs, |vs|)| + 2))
    ensures Parse(ts, i, NORMAL) == Some((List(ValueTrees(vs, |vs|)), i + |JoinedTokens(vs, |vs|)| + 1))
    decreases vs, |vs| + 1
  {
    hide Loop, Parse, Prefix, ArrayAt, Elements, TokensStand, EndsElement, JoinedTokens, Rebuildable;
    var n := |vs|;
    var close := i + 1 + |JoinedTokens(vs, n)|;
    BracketsStand(ts, i, JoinedTokens(vs, n));
    if n == 0 {
      assert JoinedTokens(vs, 0) == [] by { NoTokens(vs); }
      EmptyPrefix(ts, i);
    } else {
      ParsesElements(ts, i + 1, vs, 0, i + 1, close);
      assert vs[0..] == vs;
      ArrayPrefix(ts, i, ValueTrees(vs, n), close);
    }
    BracketPrefix(ts, i);
    LoopEnds(ts, close, NORMAL, List(ValueTrees(vs, n)));
    PrefixThenLoop(ts, i, List(ValueTrees(vs, n)), close);
  }

  lemma BracketsStand(ts: seq<Token>, i: nat, inside: seq<Token>)
    requires TokensStand(ts, i, [OPEN] + inside + [CLOSE])
    ensures i + 1 + |inside| < |ts| && ts[i] == OPEN && ts[i + 1 + |inside|] == CLOSE
    ensures TokensStand(ts, i + 1, inside)
  {
    hide TokensStand;
    TokensSplitAt(ts, i, [OPEN] + inside, [CLOSE]);
    TokensSplitAt(ts, i, [OPEN], inside);
    TokenStands(ts, i, [OPEN], 0);
    TokenStands(ts, i + 1 + |inside|, [CLOSE], 0);
  }

  lemma NoTokens(vs: seq<Value>)
    ensures JoinedTokens(vs, 0) == []
  {
  }

  lemma BracketPrefix(ts: seq<Token>, i: nat)
    requires i < |ts| && ts[i].kind == LBracket
    ensures Prefix(ts, i) == ArrayAt(ts, i)
  {
    hide Parse, GroupAt, ArrayAt;
  }

  lemma PrefixThenLoop(ts: seq<Token>, i: nat, t: Tree, j: nat)
    requires i < |ts| && j < |ts| && Prefix(ts, i) == Some((t, j))
    ensures Parse(ts, i, NORMAL) == Loop(ts, j, NORMAL, t)
  {
    hide Prefix, Loop;
  }

  lemma EmptyPrefix(ts: seq<Token>, i: nat)
    requires i + 1 < |ts| && ts[i] == OPEN && ts[i + 1] == CLOSE
    ensures ArrayAt(ts, i) == Some((List([]), i + 1))
  {
    hide Parse, Elements;
  }

  lemma ArrayPrefix(ts: seq<Token>, i: nat, es: seq<Tree>, close: nat)
    requires i + 1 < close < |ts| && ts[i].kind == LBracket && ts[close].kind == RBracket && ts[i + 1].kind != RBracket
    requires Elements(ts, i + 1, []) == Some((es, close - 1))
    ensures ArrayAt(ts, i) == Some((List(es), close))
  {
    hide Parse, Elements, Loop;
  }

  /** The elements from number k on, whose tokens start at j. */
  lemma {:induction false} ParsesElements(ts: seq<Token>, start: nat, vs: seq<Value>, k: nat, j: nat, close: nat)
    requires k < |vs| && Rebuildable(ArrV(vs)) && TokensStand(ts, start, JoinedTokens(vs, |vs|)) && close < |ts|
    requires ts[close] == CLOSE
    requires close == start + |JoinedTokens(vs, |vs|)| && j == start + ElementStart(vs, k)
    ensures Elements(ts, j, ValueTrees(vs, k)) == Some((ValueTrees(vs, |vs|), close - 1)) && ts[j].kind != RBracket
    decreases vs, |vs| - k
  {
    hide Parse, TokensStand, JoinedTokens, ValueTokens, ValueTree, ElementStart, Elements, Rebuildable;
    var last := j + |ValueTokens(vs[k])| - 1;
    ElementAt(ts, start, vs, k, close);
    RebuildableElement(vs, k);
    ParsesValue(ts, j, vs[k]);
    TokenStands(ts, j, ValueTokens(vs[k]), 0);
    FirstKind(vs[k]);
    if k + 1 < |vs| {
      ParsesElements(ts, start, vs, k + 1, last + 2, close);
    }
    ElementsStep(ts, j, ValueTrees(vs, k), ValueTree(vs[k]), last);
    assert ValueTrees(vs, k + 1) == ValueTrees(vs, k) + [ValueTree(vs[k])];
  }

  lemma RebuildableElement(vs: seq<Value>, k: nat)
    requires Rebuildable(ArrV(vs)) && k < |vs|
    ensures Rebuildable(vs[k])
  {
  }

  lemma FirstKind(v: Value)
    requires Rebuildable(v)
    ensures ValueTokens(v)[0].kind != RBracket && ValueTokens(v)[0].kind != Lexing.Ident
    ensures ValueTokens(v)[0].kind != InstanceVar
  {
  }

  lemma ElementsStep(ts: seq<Token>, j: nat, before: seq<Tree>, e: Tree, last: nat)
    requires j < |ts| && j <= last < |ts| && Parse(ts, j, NORMAL) == Some((e, last))
    ensures Elements(ts, j, before)
            == if Tok(ts, last + 1).kind == Comma then Elements(ts, last + 2, before + [e])
              else Some((before + [e], last))
  {
    hide Parse;
  }

  /** How many tokens come before element k. */
  function ElementStart(vs: seq<Value>, k: nat): nat
    requires k < |vs|
  {
    if k == 0 then 0 else |JoinedTokens(vs, k)| + 1
  }

  lemma {:induction false} JoinedPrefix(vs: seq<Value>, m: nat, n: nat)
    requires m <= n <= |vs|
    ensures |JoinedTokens(vs, m)| <= |JoinedTokens(vs, n)|
    ensures JoinedTokens(vs, n)[..|JoinedTokens(vs, m)|] == JoinedTokens(vs, m)
    ensures 0 < m < n ==>
      |JoinedTokens(vs, m)| < |JoinedTokens(vs, n)| && JoinedTokens(vs, n)[|JoinedTokens(vs, m)|] == COMMA
    decreases n
  {
    if m < n {
      JoinedPrefix(vs, m, n - 1);
      if n > 1 { JoinedNext(vs, n); }
    }
  }

  /** Element k's tokens, and what is behind them: a comma, or the closing bracket. */
  lemma ElementAt(ts: seq<Token>, start: nat, vs: seq<Value>, k: nat, close: nat)
    requires k < |vs| && TokensStand(ts, start, JoinedTokens(vs, |vs|)) && close < |ts| && ts[close] == CLOSE
    requires close == start + |JoinedTokens(vs, |vs|)|
    ensures
      var j, n := start + ElementStart(vs, k), |ValueTokens(vs[k])|;
      && TokensStand(ts, j, ValueTokens(vs[k])) && EndsElement(Tok(ts, j + n))
      && (k + 1 < |vs| ==> j + n + 1 == start + ElementStart(vs, k + 1) && Tok(ts, j + n).kind == Comma)
      && (k + 1 == |vs| ==> j + n == close && Tok(ts, j + n).kind == RBracket)
  {
    hide ValueTokens, JoinedTokens, TokensStand;
    var all, upto := JoinedTokens(vs, |vs|), JoinedTokens(vs, k + 1);
    JoinedPrefix(vs, k + 1, |vs|);
    assert all == upto + all[|upto|..];
    TokensSplitAt(ts, start, upto, all[|upto|..]);
    JoinedLast(vs, k + 1);
    TokensSplitAt(ts, start, upto[..ElementStart(vs, k)], ValueTokens(vs[k]));
    if k + 1 < |vs| { TokenStands(ts, start, all, |upto|); }
  }

  lemma JoinedLast(vs: seq<Value>, n: nat)
    requires 0 < n <= |vs|
    ensures ElementStart(vs, n - 1) <= |JoinedTokens(vs, n)|
    ensures JoinedTokens(vs, n) == JoinedTokens(vs, n)[..ElementStart(vs, n - 1)] + ValueTokens(vs[n - 1])
  {
    if n > 1 { JoinedNext(vs, n); }
  }

  // ------------------------------------------------------ compiling and running

  /** Trees that stand for a value without looking anything up but `-`. */
  predicate Literal(t: Tree) {
    match t
    case Int(_, _) => true
    case Quote(_) => true
    case Truth(_) => true
    case Nothing => true
    case Pre(op, r) => op == Minus && Literal(r)
    case List(es) => forall i :: 0 <= i < |es| ==> Literal(es[i])
    case _ => false
  }

  /** The node the generator is given for a parsed tree. */
  function NodeOf(t: Tree): A.Expr
    requires Literal(t)
  {
    match t
    case Int(_, n) => A.IntLit(n)
    case Quote(s) => A.StrLit(s)
    case Truth(b) => A.BoolLit(b)
    case Nothing => A.NilLit
    case Pre(_, r) => A.Minus(NodeOf(r))
    case List(es) => A.ArrayLit(seq(|es|, i requires 0 <= i < |es| => NodeOf(es[i])))
  }

  /** `-` between integers is the builtin of class Integer. */
  ghost predicate SubtractsIntegers(h: Host) {
    && (forall a: int :: h.find({}, IntV(a), A.MINUS_NAME) == Builtin)
    && (forall w: World, a: int, b: int {:trigger h.builtin(w, IntV(a), A.MINUS_NAME, [IntV(b)])} ::
          h.builtin(w, IntV(a), A.MINUS_NAME, [IntV(b)]) == (w, Got(IntV(Wrap64(a - b)))))
  }

  lemma {:induction false} TreesAt(vs: seq<Value>, n: nat, i: nat)
    requires i < n <= |vs|
    ensures ValueTrees(vs, n)[i] == ValueTree(vs[i])
    decreases n
  {
    if i < n - 1 { TreesAt(vs, n - 1, i); }
  }

  lemma {:induction false} ValueLiteral(v: Value)
    requires Rebuildable(v)
    ensures Literal(ValueTree(v)) && W.WfExpr(NodeOf(ValueTree(v)), 0, false)
    decreases v
  {
    if v.ArrV? {
      forall i | 0 <= i < |v.elems|
        ensures Literal(ValueTrees(v.elems, |v.elems|)[i])
          && W.WfExpr(NodeOf(ValueTrees(v.elems, |v.elems|)[i]), 0, false)
      {
        TreesAt(v.elems, |v.elems|, i);
        ValueLiteral(v.elems[i]);
      }
    }
  }

  lemma {:induction false} EvalValue(h: Host, fuel: nat, st: Ev.EState, v: Value, sc: L.Scope)
    requires Rebuildable(v) && SubtractsIntegers(h) && |st.envs| > 0 && st.defs.Keys == {} && Literal(ValueTree(v))
    ensures Ev.Eval(h, fuel, st, NodeOf(ValueTree(v)), sc) == Ev.Val(v, st) && L.After(NodeOf(ValueTree(v)), sc) == sc
    decreases v, 0
  {
    hide Ev.EvalAll, L.AfterAll, Decimal, SubtractsIntegers, Ev.Call, Ev.StoreAll, Ev.EvalArms, Ev.Operate, Ev.Holder;
    hide L.Resolve, E.NothingHidden;
    match v
    case IntV(n) =>
      if n < 0 { EvalNegative(h, fuel, st, n, sc); }
    case ArrV(vs) =>
      var t := ValueTree(v);
      forall i | 0 <= i < |vs| ensures Literal(ValueTree(vs[i])) && NodeOf(t).elems[i] == NodeOf(ValueTree(vs[i])) {
        TreesAt(vs, |vs|, i);
      }
      EvalValues(h, fuel, st, vs, NodeOf(t).elems, |vs|, sc);
    case _ =>
  }

  lemma EvalNegative(h: Host, fuel: nat, st: Ev.EState, n: int, sc: L.Scope)
    requires -MAX_INT <= n < 0 && SubtractsIntegers(h) && |st.envs| > 0 && st.defs.Keys == {}
    ensures Ev.Eval(h, fuel, st, A.Minus(A.IntLit(-n)), sc) == Ev.Val(IntV(n), st)
  {
    assert Wrap64(0 - -n) == n;
    assert st.(world := st.world) == st;
  }

  lemma {:induction false} EvalValues(h: Host, fuel: nat, st: Ev.EState, vs: seq<Value>, es: seq<A.Expr>, n: nat,
                                      sc: L.Scope)
    requires Rebuildable(ArrV(vs)) && SubtractsIntegers(h) && |st.envs| > 0 && st.defs.Keys == {} && n <= |vs| == |es|
    requires forall i :: 0 <= i < n ==> Literal(ValueTree(vs[i])) && es[i] == NodeOf(ValueTree(vs[i]))
    ensures Ev.EvalAll(h, fuel, st, es, n, sc) == Ev.Outs(vs[..n], st) && L.AfterAll(es, n, sc) == sc
    decreases vs, n
  {
    hide Ev.Eval, ValueTree, NodeOf, Literal, SubtractsIntegers, L.After;
    if n > 0 {
      EvalValues(h, fuel, st, vs, es, n - 1, sc);
      EvalValue(h, fuel, st, vs[n - 1], sc);
      assert vs[..n] == vs[..n - 1] + [vs[n - 1]];
    }
  }

  lemma NegativeFails(ts: seq<Token>, n: nat)
    requires n > MAX_INT && ts == [MINUS, IntToken(n), G.END]
    ensures ParseStatement(ts, 0) == None
  {
    hide Loop, Decimal, ParseInt, GroupAt, ArrayAt;
    DecimalParses(n);
    assert Prefix(ts, 1) == None;
    assert Parse(ts, 1, MINUS_PREFIX) == None;
    assert ts[0].kind == Minus && Prefix(ts, 0) == None;
    assert Tok(ts, 0) == ts[0] && Parse(ts, 0, NORMAL) == None;
  }

  /** Of all 64-bit integers only the smallest does not print as source that can be read. */
  lemma IntegerReadsBack(n: int)
    requires -0x8000_0000_0000_0000 <= n < 0x8000_0000_0000_0000
    ensures
      var ts := TokensFrom(InspectValue(IntV(n)), START, |ValueTokens(IntV(n))| + 1);
      ParseStatement(ts, 0).Some? <==> n != -0x8000_0000_0000_0000
  {
    hide Reads, TokensFrom, ParseStatement, Decimal, Follow;
    if n != -MAX_INT - 1 {
      TextParses(IntV(n));
    } else {
      var s := InspectValue(IntV(n));
      assert E.Stands(s, 0, s);
      ReadsNegative(s, START, 0, -n);
      var vt := [MINUS, IntToken(-n)];
      ReadsPlace(s, START, vt, |s|);
      ReadsEnd(s, After(s, START, |vt|));
      ReadsBoth(s, START, vt, |s|, [G.END], |s| + 1);
      ReadsTokens(s, START, vt + [G.END], |s| + 1);
      assert vt + [G.END] == [MINUS, IntToken(-n), G.END];
      NegativeFails(vt + [G.END], -n);
    }
  }

  lemma TextParses(v: Value)
    requires Rebuildable(v)
    ensures
      var n := |ValueTokens(v)|;
      var ts := TokensFrom(InspectValue(v), START, n + 1);
      && ts == ValueTokens(v) + [G.END]
      && ParseStatement(ts, 0) == Some((ValueTree(v), n - 1))
  {
    hide Reads, TokensFrom, Follow, Parse, InspectValue, ValueTokens, Rebuildable;
    var s := InspectValue(v);
    var vt := ValueTokens(v);
    assert E.Stands(s, 0, s);
    ReadsValue(s, START, 0, v);
    ReadsPlace(s, START, vt, |s|);
    ReadsEnd(s, After(s, START, |vt|));
    ReadsBoth(s, START, vt, |s|, [G.END], |s| + 1);
    ReadsTokens(s, START, vt + [G.END], |s| + 1);
    var ts := vt + [G.END];
    assert ts == TokensFrom(s, START, |vt| + 1);
    assert Tok(ts, |vt|) == G.END && Tok(ts, 0) == vt[0] && ts[0..0 + |vt|] == vt;
    ParsesValue(ts, 0, v);
    FirstKind(v);
    assert ParseStatement(ts, 0) == Parse(ts, 0, NORMAL);
  }

  /** The expression statement the parser makes of an expression; in the mode that keeps the
      last value, its value is not popped. */
  function StatementOf(e: A.Expr): A.Stmt {
    A.ExprStmt(e, false)
  }

  lemma StatementRuns(h: Host, fuel: nat, st: Ev.EState, e: A.Expr, v: Value)
    requires Ev.Eval(h, fuel, st, e, L.EMPTY) == Ev.Val(v, st) && W.WfExpr(e, 0, false)
    ensures Ev.EvalStmts(h, fuel, st, [StatementOf(e)], 1, L.EMPTY) == Ev.Val(v, st)
    ensures W.WfUnit(A.MainSource([StatementOf(e)]))
  {
    hide Ev.Eval, W.WfExpr;
    assert Ev.EvalStmts(h, fuel, st, [StatementOf(e)], 0, L.EMPTY) == Ev.Done(st);
    assert L.AfterStmts([StatementOf(e)], 0, L.EMPTY) == L.EMPTY;
    assert Ev.EvalStmt(h, fuel, st, StatementOf(e), L.EMPTY) == Ev.Val(v, st);
    assert W.WfStmt(StatementOf(e), 0, false);
  }

  /** A printed value, lexed and parsed, is the tree of the value; and the code generated for
      the statement of that tree, elided any number of times, leaves just the value. */
  lemma InspectRebuilds(v: Value, h: Host, order: seq<nat>, self: Value, world: World) returns (n: nat)
    requires Rebuildable(v) && SubtractsIntegers(h)
    ensures
      var ts := TokensFrom(InspectValue(v), START, |ValueTokens(v)| + 1);
      var parsed := ParseStatement(ts, 0);
      && ts == ValueTokens(v) + [G.END]
      && parsed.Some? && Literal(parsed.value.0) && parsed.value.1 == |ts| - 2
      && var code := Optimised.SetsElided(Pipeline.Generated([StatementOf(NodeOf(parsed.value.0))]).sets, order);
         var t := Run(code, h, Correctness.Initial(0, self, world), n);
         t.status == Running && Halted(code, t) && t.stack == [v] && t.world == world
  {
    hide Run, Halted, Optimised.SetsElided, Ev.Eval, Rebuildable, TokensFrom, ParseStatement, SubtractsIntegers;
    hide ValueTokens, ValueTree, InspectValue, NodeOf;
    TextParses(v);
    ValueLiteral(v);
    var e := NodeOf(ValueTree(v));
    var body := [StatementOf(e)];
    var st := Ev.EState([Ev.InitialEnv(self)], map[], world);
    EvalValue(h, 0, st, v, L.EMPTY);
    StatementRuns(h, 0, st, e, v);
    assert Ev.EvalProgram(h, 0, self, world, body) == Ev.Val(v, st);
    n := Pipeline.CompilerCorrect(body, h, order, 0, self, world);
    var p := Pipeline.Generated(body);
    var t := Run(Optimised.SetsElided(p.sets, order), h, Correctness.Initial(0, self, world), n);
    assert Correctness.Matches(p, h, 0, 0, n, t, Ev.Val(v, st));
  }
}
