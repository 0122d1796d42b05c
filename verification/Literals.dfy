/**
 What string literals mean, said of how they are written: a literal is a row of
 pieces, each a character or an escape sequence, and reading it gives the row of
 what the pieces mean.
 */
module Literals {
  import opened Wrappers
  import opened Lexing

  /** A character that stands for itself; a backslash with a letter, with hexadecimal digits in either case, with
      octal digits, or with any other character; and a digit sequence broken off by another character. */
  datatype Piece =
    | Itself(c: char)
    | Letter(c: char)
    | Hex(kind: char, digits: seq<Digit>)
    | Octal(first: nat, second: nat, third: nat)
    | Backslashed(c: char)
    | BrokenHex(kind: char, digits: seq<Digit>, bad: char)
    | BrokenOctal(octals: seq<nat>, bad: char)

  datatype Digit = Digit(value: nat, upper: bool)

  function HexChar(d: Digit): char
    requires d.value < 16
  {
    if d.upper then "0123456789ABCDEF"[d.value] else "0123456789abcdef"[d.value]
  }

  function OctalChar(d: nat): char
    requires d < 8
  {
    "01234567"[d]
  }

  predicate AllHex(ds: seq<Digit>) {
    forall k :: 0 <= k < |ds| ==> ds[k].value < 16
  }

  function HexChars(ds: seq<Digit>): (s: string)
    requires AllHex(ds)
    ensures |s| == |ds|
  {
    seq(|ds|, k requires 0 <= k < |ds| => HexChar(ds[k]))
  }

  /** How many digits belong behind x, u and U. */
  function Places(kind: char): nat {
    if kind == 'x' then 2 else if kind == 'u' then 4 else if kind == 'U' then 8 else 0
  }

  predicate IsHexDigit(c: char) {
    c in "0123456789abcdefABCDEF"
  }

  predicate PieceOk(p: Piece, quote: char) {
    match p
    case Itself(c) => c != '\\' && c != quote && c != '\0'
    case Letter(c) => c in "abfnrtv"
    case Hex(kind, ds) => kind in "xuU" && AllHex(ds) && |ds| == Places(kind)
    case Octal(a, b, c) => a < 8 && b < 8 && c < 8
    case Backslashed(c) => c !in "abfnrtvxuU01234567" && c != '\0'
    case BrokenHex(kind, ds, bad) =>
      kind in "xuU" && AllHex(ds) && |ds| < Places(kind) && !IsHexDigit(bad) && bad != '\0'
    case BrokenOctal(ds, bad) =>
      1 <= |ds| < 3 && (forall k :: 0 <= k < |ds| ==> ds[k] < 8) && bad !in "01234567" && bad != '\0'
  }

  function OctalChars(ds: seq<nat>): string
    requires forall k :: 0 <= k < |ds| ==> ds[k] < 8
  {
    seq(|ds|, k requires 0 <= k < |ds| => OctalChar(ds[k]))
  }

  /** How a piece is written. */
  function Written(p: Piece, quote: char): (s: string)
    requires PieceOk(p, quote)
    ensures |s| > 0
  {
    match p
    case Itself(c) => [c]
    case Letter(c) => ['\\', c]
    case Hex(kind, ds) => ['\\', kind] + HexChars(ds)
    case Octal(a, b, c) => ['\\', OctalChar(a), OctalChar(b), OctalChar(c)]
    case Backslashed(c) => ['\\', c]
    case BrokenHex(kind, ds, bad) => ['\\', kind] + HexChars(ds) + [bad]
    case BrokenOctal(ds, bad) => ['\\'] + OctalChars(ds) + [bad]
  }

  function HexValue(ds: seq<Digit>): nat {
    if ds == [] then 0 else 16 * HexValue(ds[..|ds| - 1]) + ds[|ds| - 1].value
  }

  /** The character with that code point; of what is no code point, the replacement character. */
  function CodePoint(v: int): char {
    if 0 <= v < 0xD800 || 0xE000 <= v < 0x11_0000 then v as char else '\U{FFFD}'
  }

  function LetterMeans(c: char): char {
    match c
    case 'a' => '\U{07}'   // bell
    case 'b' => '\U{08}'   // backspace
    case 't' => '\U{09}'   // tab
    case 'n' => '\U{0A}'   // newline
    case 'v' => '\U{0B}'   // vertical tab
    case 'f' => '\U{0C}'   // form feed
    case 'r' => '\U{0D}'   // carriage return
    case _ => c
  }

  /** What it means; a digit sequence that is broken off means nothing, and takes the character behind it along. */
  function Means(p: Piece): string {
    match p
    case Itself(c) => [c]
    case Letter(c) => [LetterMeans(c)]
    case Hex(_, ds) => [CodePoint(HexValue(ds))]
    case Octal(a, b, c) => [CodePoint(64 * a + 8 * b + c)]
    case Backslashed(c) => [c]
    case BrokenHex(_, _, _) => ""
    case BrokenOctal(_, _) => ""
  }

  predicate AllOk(ps: seq<Piece>, quote: char) {
    forall k :: 0 <= k < |ps| ==> PieceOk(ps[k], quote)
  }

  function WrittenAll(ps: seq<Piece>, quote: char): string
    requires AllOk(ps, quote)
  {
    if ps == [] then "" else Written(ps[0], quote) + WrittenAll(ps[1..], quote)
  }

  function MeansAll(ps: seq<Piece>): string {
    if ps == [] then "" else Means(ps[0]) + MeansAll(ps[1..])
  }

  ghost predicate Stands(s: string, j: nat, t: string) {
    j + |t| <= |s| && s[j..j + |t|] == t
  }

  lemma StandsAt(s: string, j: nat, t: string, k: nat)
    requires Stands(s, j, t) && k < |t|
    ensures At(s, j + k) == t[k]
  {
    assert s[j..j + |t|][k] == s[j + k];
  }

  lemma StandsBoth(s: string, j: nat, a: string, b: string)
    requires Stands(s, j, a + b)
    ensures Stands(s, j, a) && Stands(s, j + |a|, b)
  {
    var w := s[j..j + |a + b|];
    assert s[j..j + |a|] == w[..|a|] && s[j + |a|..j + |a| + |b|] == w[|a|..];
  }

  // ------------------------------------------------------------------ digits

  lemma DigitRead(d: Digit)
    requires d.value < 16
    ensures FromHex(HexChar(d)) == Some(d.value as int)
  {
  }

  lemma NoDigitRead(c: char)
    ensures FromHex(c).Some? <==> IsHexDigit(c)
  {
  }

  lemma {:induction false} HexBound(ds: seq<Digit>, n: nat)
    requires AllHex(ds) && |ds| <= n <= 8
    ensures HexValue(ds) <
      if n == 0 then 1 else if n == 1 then 0x10 else if n == 2 then 0x100 else if n == 3 then 0x1000
      else if n == 4 then 0x1_0000 else if n == 5 then 0x10_0000 else if n == 6 then 0x100_0000
      else if n == 7 then 0x1000_0000 else 0x1_0000_0000
    decreases n
  {
    if ds != [] { HexBound(ds[..|ds| - 1], n - 1); } 
  }

  lemma SmallWrap(v: int)
    requires 0 <= v < 0x8000_0000
    ensures Wrap32(v) == v
  {
  }

  /** Numbers too large for Go's rune are no code points, wrapped round or not. */
  lemma WrapCodePoint(v: int)
    requires 0 <= v < 0x1_0000_0000
    ensures RuneChar(Wrap32(v)) == CodePoint(v)
  {
    if v < 0x8000_0000 {
      SmallWrap(v);
    } else {
      assert v + 0x8000_0000 == 0x1_0000_0000 + (v - 0x8000_0000);
      assert Wrap32(v) < 0;
    }
  }

  lemma HexStep(s: string, i: nat, n: nat, v: int)
    requires n > 0
    ensures FromHex(At(s, i + 1)).Some? ==>
              HexEscape(s, i, n, v) == HexEscape(s, i + 1, n - 1, Wrap32(v * 16 + FromHex(At(s, i + 1)).value))
    ensures FromHex(At(s, i + 1)).None? ==> HexEscape(s, i, n, v) == Escaped(None, i + 1)
  {
    hide Wrap32, FromHex, At;
  }

  lemma HexEnd(s: string, i: nat, v: int)
    ensures HexEscape(s, i, 0, v) == Escaped(Some(v), i)
  {
  }

  lemma HexValueNext(ds: seq<Digit>, k: nat)
    requires k < |ds|
    ensures HexValue(ds[..k + 1]) == 16 * HexValue(ds[..k]) + ds[k].value
  {
    assert ds[..k + 1][..k] == ds[..k];
  }

  /** The digits from k on, with the value of those before. */
  lemma {:induction false} DigitsRead(s: string, i: nat, ds: seq<Digit>, k: nat, n: nat)
    requires AllHex(ds) && k <= |ds| <= n <= 8 && Stands(s, i + 1, HexChars(ds))
    requires |ds| < n ==> !IsHexDigit(At(s, i + 1 + |ds|))
    ensures
      var e := HexEscape(s, i + k, n - k, Wrap32(HexValue(ds[..k])));
      e == if |ds| == n then Escaped(Some(Wrap32(HexValue(ds))), i + n) else Escaped(None, i + |ds| + 1)
    decreases |ds| - k
  {
    hide Wrap32, HexEscape, FromHex, At, HexValue, IsHexDigit, Stands;
    if k == |ds| {
      assert ds[..k] == ds;
      NoDigitRead(At(s, i + 1 + |ds|));
      if k < n { HexStep(s, i + k, n - k, Wrap32(HexValue(ds))); } else { HexEnd(s, i + k, Wrap32(HexValue(ds))); }
    } else {
      StandsAt(s, i + 1, HexChars(ds), k);
      DigitRead(ds[k]);
      HexBound(ds[..k], 7);
      SmallWrap(HexValue(ds[..k]));
      HexValueNext(ds, k);
      HexStep(s, i + k, n - k, HexValue(ds[..k]));
      assert i + 1 + k == i + k + 1;
      DigitsRead(s, i, ds, k + 1, n);
    }
  }

  lemma AllDigitsRead(s: string, i: nat, ds: seq<Digit>, n: nat, v: int)
    requires AllHex(ds) && |ds| <= n <= 8 && Stands(s, i + 1, HexChars(ds)) && v == 0
    requires |ds| < n ==> !IsHexDigit(At(s, i + 1 + |ds|))
    ensures HexEscape(s, i, n, v)
      == if |ds| == n then Escaped(Some(Wrap32(HexValue(ds))), i + n) else Escaped(None, i + |ds| + 1)
  {
    hide HexEscape, Stands, IsHexDigit, At, HexChars, AllHex, Wrap32, HexValue;
    var k: nat :| k == 0;
    assert ds[..k] == [];
    NoValue();
    SmallWrap(v);
    DigitsRead(s, i, ds, k, n);
  }

  lemma HexRead(s: string, i: nat, ds: seq<Digit>, n: nat)
    requires AllHex(ds) && |ds| <= n <= 8 && Stands(s, i + 1, HexChars(ds))
    requires |ds| < n ==> !IsHexDigit(At(s, i + 1 + |ds|))
    ensures
      var e := HexEscape(s, i, n, 0);
      && (|ds| == n ==> e.v.Some? && RuneChar(e.v.value) == CodePoint(HexValue(ds)) && e.at == i + n)
      && (|ds| < n ==> e == Escaped(None, i + |ds| + 1))
  {
    hide HexEscape, Wrap32, RuneChar, CodePoint, HexValue, Stands, IsHexDigit, At, HexChars;
    AllDigitsRead(s, i, ds, n, 0);
    HexBound(ds, 8);
    WrapCodePoint(HexValue(ds));
  }

  lemma NoValue()
    ensures HexValue([]) == 0
  {
  }

  lemma OctalsRead(s: string, i: nat, a: nat, b: nat, c: nat)
    requires b < 8 && c < 8 && Stands(s, i + 1, [OctalChar(b), OctalChar(c)])
    ensures OctalEscape(s, i, 2, a) == Escaped(Some(64 * a + 8 * b + c), i + 2)
  {
    StandsAt(s, i + 1, [OctalChar(b), OctalChar(c)], 0);
    StandsAt(s, i + 1, [OctalChar(b), OctalChar(c)], 1);
    OctalStep(s, i, 2, a, b);
    OctalStep(s, i + 1, 1, 8 * a + b, c);
  }

  lemma OctalStep(s: string, i: nat, n: nat, v: int, d: nat)
    requires n > 0 && d < 8 && At(s, i + 1) == OctalChar(d)
    ensures OctalEscape(s, i, n, v) == OctalEscape(s, i + 1, n - 1, 8 * v + d)
  {
  }

  lemma OctalBroken(s: string, i: nat, n: nat, v: int)
    requires n > 0 && At(s, i + 1) !in "01234567"
    ensures OctalEscape(s, i, n, v) == Escaped(None, i + 1)
  {
  }

  // ------------------------------------------------------------------ pieces

  /** One turn of the reader's loop at a piece. */
  lemma PieceRead(s: string, j: nat, p: Piece, quote: char)
    requires PieceOk(p, quote) && Stands(s, j, Written(p, quote))
    ensures Unit(s, j) == (Means(p), j + |Written(p, quote)| - 1)
  {
    hide HexEscape, OctalEscape, HexChars, HexValue, OctalChar;
    var w := Written(p, quote);
    StandsAt(s, j, w, 0);
    if |w| > 1 { StandsAt(s, j, w, 1); }
    match p
    case Itself(c) =>
    case Letter(c) => LetterRead(s, j + 1, c);
    case Backslashed(c) => OtherRead(s, j + 1, c);
    case Hex(kind, ds) => HexPieceRead(s, j, kind, ds);
    case BrokenHex(kind, ds, bad) => BrokenHexRead(s, j, kind, ds, bad);
    case Octal(a, b, c) =>
      assert w == ['\\', OctalChar(a)] + [OctalChar(b), OctalChar(c)];
      StandsBoth(s, j, ['\\', OctalChar(a)], [OctalChar(b), OctalChar(c)]);
      OctalStart(s, j + 1, a);
      OctalsRead(s, j + 1, a, b, c);
    case BrokenOctal(ds, bad) => BrokenOctalRead(s, j, ds, bad);
  }

  lemma HexStart(s: string, i: nat, kind: char)
    requires kind in "xuU" && At(s, i) == kind
    ensures EscapeAt(s, i) == HexEscape(s, i, Places(kind), 0) && Places(kind) <= 8
  {
    hide HexEscape;
  }

  lemma HexPieceRead(s: string, j: nat, kind: char, ds: seq<Digit>)
    requires kind in "xuU" && AllHex(ds) && |ds| == Places(kind) && Stands(s, j, ['\\', kind] + HexChars(ds))
    ensures Unit(s, j) == ([CodePoint(HexValue(ds))], j + |ds| + 1)
  {
    hide HexEscape, HexValue, HexChars, EscapeAt, CodePoint, RuneChar, Stands, At, Places;
    var w := ['\\', kind] + HexChars(ds);
    StandsAt(s, j, w, 0);
    StandsAt(s, j, w, 1);
    StandsBoth(s, j, ['\\', kind], HexChars(ds));
    HexStart(s, j + 1, kind);
    HexRead(s, j + 1, ds, Places(kind));
  }

  lemma BrokenHexRead(s: string, j: nat, kind: char, ds: seq<Digit>, bad: char)
    requires kind in "xuU" && AllHex(ds) && |ds| < Places(kind) && !IsHexDigit(bad)
    requires Stands(s, j, ['\\', kind] + HexChars(ds) + [bad])
    ensures Unit(s, j) == ("", j + |ds| + 2)
  {
    hide HexEscape, HexValue, HexChars, EscapeAt, CodePoint, RuneChar, Stands, At, Places, IsHexDigit;
    var w := ['\\', kind] + HexChars(ds) + [bad];
    StandsAt(s, j, w, 0);
    StandsAt(s, j, w, 1);
    StandsAt(s, j, w, |ds| + 2);
    StandsBoth(s, j, ['\\', kind] + HexChars(ds), [bad]);
    StandsBoth(s, j, ['\\', kind], HexChars(ds));
    HexStart(s, j + 1, kind);
    assert j + 1 + 1 + |ds| == j + (|ds| + 2);
    HexRead(s, j + 1, ds, Places(kind));
  }

  lemma LetterRead(s: string, i: nat, c: char)
    requires c in "abfnrtv" && At(s, i) == c
    ensures EscapeAt(s, i).v.Some? && [RuneChar(EscapeAt(s, i).v.value)] == [LetterMeans(c)] && EscapeAt(s, i).at == i
  {
  }

  lemma OtherRead(s: string, i: nat, c: char)
    requires c !in "abfnrtvxuU01234567" && At(s, i) == c
    ensures EscapeAt(s, i).v.Some? && RuneChar(EscapeAt(s, i).v.value) == c && EscapeAt(s, i).at == i
  {
  }

  lemma OctalStart(s: string, i: nat, a: nat)
    requires a < 8 && At(s, i) == OctalChar(a)
    ensures EscapeAt(s, i) == OctalEscape(s, i, 2, a)
  {
    hide OctalEscape;
  }

  lemma BrokenOctalRead(s: string, j: nat, ds: seq<nat>, bad: char)
    requires 1 <= |ds| < 3 && (forall k :: 0 <= k < |ds| ==> ds[k] < 8) && bad !in "01234567"
    requires Stands(s, j, ['\\'] + OctalChars(ds) + [bad])
    ensures Unit(s, j) == ("", j + |ds| + 1)
  {
    hide OctalEscape;
    var w := ['\\'] + OctalChars(ds) + [bad];
    StandsAt(s, j, w, 0);
    StandsAt(s, j, w, 1);
    StandsAt(s, j, w, 2);
    StandsAt(s, j, w, |ds| + 1);
    OctalStart(s, j + 1, ds[0]);
    if |ds| == 1 {
      OctalBroken(s, j + 1, 2, ds[0]);
    } else {
      OctalStep(s, j + 1, 2, ds[0], ds[1]);
      OctalBroken(s, j + 2, 1, 8 * ds[0] + ds[1]);
    }
  }

  // ---------------------------------------------------------------- literals

  /** No written piece holds a NUL. */
  lemma WrittenPlain(p: Piece, quote: char)
    requires PieceOk(p, quote) && quote != '\0'
    ensures '\0' !in Written(p, quote)
  {
    match p
    case Hex(_, ds) => HexPlain(ds);
    case BrokenHex(_, ds, _) => HexPlain(ds);
    case Octal(a, b, c) => OctalPlain(a); OctalPlain(b); OctalPlain(c);
    case BrokenOctal(ds, _) => OctalsPlain(ds);
    case _ =>
    hide HexChars, OctalChars, OctalChar;
  }

  lemma HexPlain(ds: seq<Digit>)
    requires AllHex(ds)
    ensures '\0' !in HexChars(ds)
  {
    forall k | 0 <= k < |ds| ensures HexChars(ds)[k] != '\0' { DigitRead(ds[k]); }
  }

  lemma OctalPlain(d: nat)
    requires d < 8
    ensures OctalChar(d) != '\0'
  {
  }

  lemma OctalsPlain(ds: seq<nat>)
    requires forall k :: 0 <= k < |ds| ==> ds[k] < 8
    ensures '\0' !in OctalChars(ds)
  {
    forall k | 0 <= k < |ds| ensures OctalChars(ds)[k] != '\0' { OctalPlain(ds[k]); }
  }

  lemma NotQuote(p: Piece, quote: char)
    requires PieceOk(p, quote) && quote in "\"'"
    ensures Written(p, quote)[0] != quote
  {
  }

  /** The reader's loop over the pieces, up to the closing quote. */
  lemma {:induction false} PiecesRead(s: string, j: nat, ps: seq<Piece>, quote: char)
    requires quote in "\"'" && ps != [] && AllOk(ps, quote) && Stands(s, j, WrittenAll(ps, quote) + [quote])
    ensures StringFrom(s, quote, j) == (MeansAll(ps), j + |WrittenAll(ps, quote)| + 1)
    decreases |ps|
  {
    hide Unit, Written, Means, PieceOk, At, Stands;
    var p, rest := ps[0], ps[1..];
    var w, more := Written(p, quote), WrittenAll(rest, quote) + [quote];
    assert WrittenAll(ps, quote) + [quote] == w + more;
    StandsBoth(s, j, w, more);
    PieceRead(s, j, p, quote);
    StandsAt(s, j + |w|, more, 0);
    InText(s, j, w + more);
    if rest == [] {
      assert MeansAll(ps) == Means(p) + "" == Means(p) && WrittenAll(ps, quote) == w + "" == w;
      StringStops(s, quote, j);
    } else {
      NotQuote(rest[0], quote);
      assert AllOk(rest, quote);
      assert more[0] == Written(rest[0], quote)[0];
      NoNul(rest, quote);
      StandsAt(s, j + |w|, more, 1);
      StringGoesOn(s, quote, j);
      PiecesRead(s, j + |w|, rest, quote);
    }
  }

  lemma InText(s: string, j: nat, t: string)
    requires Stands(s, j, t) && |t| > 0
    ensures j < |s|
  {
  }

  lemma {:induction false} NoNul(ps: seq<Piece>, quote: char)
    requires quote in "\"'" && AllOk(ps, quote)
    ensures '\0' !in WrittenAll(ps, quote) + [quote]
    decreases |ps|
  {
    hide Written, PieceOk;
    if ps != [] {
      WrittenPlain(ps[0], quote);
      NoNul(ps[1..], quote);
    }
  }

  lemma StringStops(s: string, quote: char, j: nat)
    requires At(s, Unit(s, j).1 + 1) == quote
    ensures StringFrom(s, quote, j) == (Unit(s, j).0, Unit(s, j).1 + 2)
  {
    hide Unit, At;
  }

  lemma StringGoesOn(s: string, quote: char, j: nat)
    requires j < |s| && At(s, Unit(s, j).1 + 1) != quote && At(s, Unit(s, j).1 + 2) != NUL
    ensures
      var (more, end) := StringFrom(s, quote, Unit(s, j).1 + 1);
      StringFrom(s, quote, j) == (Unit(s, j).0 + more, end)
  {
    hide Unit, At;
  }

  /** Every literal in double or single quotes, wherever it stands: reading it gives what its pieces mean, one
      after the other, and the position behind the closing quote. */
  lemma LiteralRead(s: string, i: nat, ps: seq<Piece>, quote: char)
    requires quote in "\"'" && AllOk(ps, quote) && Stands(s, i, [quote] + WrittenAll(ps, quote) + [quote])
    ensures StringAt(s, i) == (MeansAll(ps), i + |WrittenAll(ps, quote)| + 2)
  {
    hide StringFrom, Written, Means, PieceOk, At, Stands;
    var body := WrittenAll(ps, quote) + [quote];
    assert [quote] + WrittenAll(ps, quote) + [quote] == [quote] + body;
    StandsBoth(s, i, [quote], body);
    StandsAt(s, i, [quote], 0);
    StandsAt(s, i + 1, body, 0);
    if ps != [] {
      NotQuote(ps[0], quote);
      PiecesRead(s, i + 1, ps, quote);
    }
  }

  // ------------------------------------------------------------- every rune

  /** The digits of a number, n of them. */
  function DigitsOf(v: nat, n: nat, upper: bool): (ds: seq<Digit>)
    ensures |ds| == n && AllHex(ds)
  {
    if n == 0 then [] else DigitsOf(v / 16, n - 1, upper) + [Digit(v % 16, upper)]
  }

  function Power(n: nat): nat {
    if n == 0 then 1 else 16 * Power(n - 1)
  }

  lemma {:induction false} DigitsValue(v: nat, n: nat, upper: bool)
    requires v < Power(n)
    ensures HexValue(DigitsOf(v, n, upper)) == v
    decreases n
  {
    if n > 0 {
      DigitsValue(v / 16, n - 1, upper);
      var ds := DigitsOf(v, n, upper);
      assert ds[..n - 1] == DigitsOf(v / 16, n - 1, upper);
    }
  }

  /** Each rune is read back from its code point behind x, u or U, in as many digits as belong there, whatever
      the case of the letters. */
  lemma EveryRune(c: char, kind: char, upper: bool)
    requires kind in "xuU" && c as int < Power(Places(kind))
    ensures
      var p := Hex(kind, DigitsOf(c as int, Places(kind), upper));
      PieceOk(p, '"') && Means(p) == [c] && StringAt("\"" + Written(p, '"') + "\"", 0).0 == [c]
  {
    hide Power, HexValue, HexChars, DigitsOf, StringAt, Places;
    var p := Hex(kind, DigitsOf(c as int, Places(kind), upper));
    DigitsValue(c as int, Places(kind), upper);
    var w := Written(p, '"');
    assert [p][1..] == [] && WrittenAll([], '"') == "" == MeansAll([]);
    assert WrittenAll([p], '"') == w + "" == w && MeansAll([p]) == Means(p) + "" == Means(p);
    assert "\"" + w + "\"" == ['"'] + WrittenAll([p], '"') + ['"'];
    assert AllOk([p], '"');
    var s := "\"" + w + "\"";
    assert s[0..0 + |s|] == s;
    LiteralRead(s, 0, [p], '"');
  }
}
