/**
 Strings printed and read again (vm/string.go, compiler/lexer/lexer.go): what
 Inspect writes, the lexer's string reader turns back into the string, exactly
 as long as no NUL stands where the reader takes it for the end of the input.
 */
module Escaping {
  import opened Wrappers
  import opened Lexing

  /** strings.Replace of every occurrence of one character. */
  function Replaced(s: string, c: char, text: string): string {
    if s == "" then "" else (if s[0] == c then text else [s[0]]) + Replaced(s[1..], c, text)
  }

  function EscapeBackslash(s: string): string {
    Replaced(s, '\\', "\\\\")
  }

  function EscapeSpecialChars(s: string): string {
    Replaced(Replaced(s, '\n', "\\n"), '"', "\\\"")
  }

  /** StringObject.Inspect. */
  function Inspect(s: string): string {
    "\"" + EscapeSpecialChars(EscapeBackslash(s)) + "\""
  }

  predicate IsSpecial(c: char) {
    c == '\\' || c == '\n' || c == '"'
  }

  /** The three passes, character by character. */
  function EscapeChar(c: char): string {
    if c == '\\' then "\\\\" else if c == '\n' then "\\n" else if c == '"' then "\\\"" else [c]
  }

  function EscapeAll(s: string): string {
    if s == "" then "" else EscapeChar(s[0]) + EscapeAll(s[1..])
  }

  lemma ReplacedStep(s: string, rest: string, c: char, text: string)
    requires s != "" && rest == s[1..]
    ensures Replaced(s, c, text) == (if s[0] == c then text else [s[0]]) + Replaced(rest, c, text)
  {
  }

  lemma JoinAssociates(a: string, b: string, c: string)
    ensures a + (b + c) == (a + b) + c
  {
  }

  lemma {:induction false} ReplacedConcat(a: string, b: string, c: char, text: string)
    ensures Replaced(a + b, c, text) == Replaced(a, c, text) + Replaced(b, c, text)
    decreases a
  {
    if a == "" {
      assert a + b == b;
    } else {
      assert (a + b)[0] == a[0] && (a + b)[1..] == a[1..] + b;
      ReplacedStep(a + b, a[1..] + b, c, text);
      ReplacedStep(a, a[1..], c, text);
      hide Replaced;
      ReplacedConcat(a[1..], b, c, text);
      JoinAssociates(if a[0] == c then text else [a[0]], Replaced(a[1..], c, text), Replaced(b, c, text));
    }
  }

  lemma ReplacedOne(c: char, d: char, text: string)
    ensures Replaced([c], d, text) == if c == d then text else [c]
  {
    assert [c][1..] == "";
  }

  /** Escaping a single character through all passes. */
  lemma OneChar(c: char)
    ensures EscapeSpecialChars(EscapeBackslash([c])) == EscapeChar(c)
  {
    ReplacedOne(c, '\\', "\\\\");
    if c == '\\' {
      assert "\\\\" == ['\\'] + ['\\'];
      ReplacedConcat("\\", "\\", '\n', "\\n");
      ReplacedConcat("\\", "\\", '"', "\\\"");
      ReplacedOne('\\', '\n', "\\n");
      ReplacedOne('\\', '"', "\\\"");
    } else {
      ReplacedOne(c, '\n', "\\n");
      if c == '\n' {
        assert "\\n" == ['\\'] + ['n'];
        ReplacedConcat("\\", "n", '"', "\\\"");
        ReplacedOne('\\', '"', "\\\"");
        ReplacedOne('n', '"', "\\\"");
      } else {
        ReplacedOne(c, '"', "\\\"");
      }
    }
  }

  /** The passes in sequence are one map over the characters: no pass disturbs what another wrote. */
  lemma {:induction false} InspectIsMap(s: string)
    ensures Inspect(s) == "\"" + EscapeAll(s) + "\""
  {
    PassesAreMap(s);
  }

  lemma {:induction false} PassesAreMap(s: string)
    ensures EscapeSpecialChars(EscapeBackslash(s)) == EscapeAll(s)
  {
    if s != "" {
      var a, b := [s[0]], s[1..];
      assert s == a + b;
      PassesAreMap(b);
      OneChar(s[0]);
      ReplacedConcat(a, b, '\\', "\\\\");
      ReplacedConcat(EscapeBackslash(a), EscapeBackslash(b), '\n', "\\n");
      ReplacedConcat(Replaced(EscapeBackslash(a), '\n', "\\n"), Replaced(EscapeBackslash(b), '\n', "\\n"), '"', "\\\"");
    }
  }

  /** What is printed for one character, and that each character is printed for itself. */
  lemma InspectOne(c: char)
    ensures Inspect([c]) ==
      if c == '\n' then "\"\\n\"" else if c == '"' then "\"\\\"\"" else if c == '\\' then "\"\\\\\"" else ['"', c, '"']
  {
    OneChar(c);
  }

  lemma InspectBoth(a: string, b: string)
    ensures Inspect("") == "\"\""
    ensures |Inspect(a)| >= 2 && |Inspect(b)| >= 2 && Inspect(a + b) == Inspect(a)[..|Inspect(a)| - 1] + Inspect(b)[1..]
  {
    InspectIsMap("");
    InspectIsMap(a);
    InspectIsMap(b);
    InspectIsMap(a + b);
    EscapeBoth(a, b);
    assert EscapeAll("") == "";
    hide Inspect, EscapeAll;
    QuotedBoth(EscapeAll(a), EscapeAll(b));
  }

  lemma QuotedBoth(x: string, y: string)
    ensures
      var a, b := "\"" + x + "\"", "\"" + y + "\"";
      "\"" + (x + y) + "\"" == a[..|a| - 1] + b[1..]
  {
  }

  lemma {:induction false} EscapeBoth(a: string, b: string)
    ensures EscapeAll(a + b) == EscapeAll(a) + EscapeAll(b)
  {
    if a == "" {
      assert a + b == b;
    } else {
      assert (a + b)[0] == a[0] && (a + b)[1..] == a[1..] + b;
      EscapeBoth(a[1..], b);
    }
  }

  // ---------------------------------------------------------- reading it back

  /** Character k of s would be taken for the end of the input: it is NUL, and
      behind an unescaped character that is not the first. */
  predicate Hidden(s: string, k: nat)
    requires k < |s|
  {
    k >= 2 && s[k] == NUL && !IsSpecial(s[k - 1])
  }

  /** Text t stands at j in the input. */
  predicate Stands(input: string, j: nat, t: string) {
    j + |t| <= |input| && input[j..j + |t|] == t
  }

  lemma StandsAt(input: string, j: nat, t: string, k: nat)
    requires Stands(input, j, t) && k < |t|
    ensures At(input, j + k) == t[k]
  {
    assert input[j..j + |t|][k] == input[j + k];
  }

  lemma StandsSplit(input: string, j: nat, a: string, b: string)
    requires Stands(input, j, a + b)
    ensures Stands(input, j, a) && Stands(input, j + |a|, b)
  {
    assert input[j..j + |a + b|][..|a|] == a;
    assert input[j..j + |a + b|][|a|..] == b;
    assert input[j..j + |a|] == input[j..j + |a + b|][..|a|];
    assert input[j + |a|..j + |a| + |b|] == input[j..j + |a + b|][|a|..];
  }

  /** One turn of the reader takes one escaped character. */
  lemma UnitReads(input: string, j: nat, c: char)
    requires Stands(input, j, EscapeChar(c))
    ensures Unit(input, j) == ([c], j + |EscapeChar(c)| - 1)
  {
    StandsAt(input, j, EscapeChar(c), 0);
    if IsSpecial(c) { StandsAt(input, j, EscapeChar(c), 1); }
  }

  /** The first character of an escaped string. */
  lemma FirstOf(s: string)
    requires s != ""
    ensures EscapeAll(s) != "" && EscapeAll(s)[0] == (if IsSpecial(s[0]) then '\\' else s[0]) && EscapeAll(s)[0] != '"'
  {
  }

  /** A turn that ends the loop, and one that does not. */
  lemma LastTurn(input: string, j: nat, text: string, last: nat)
    requires Unit(input, j) == (text, last) && (At(input, last + 1) == '"' || At(input, last + 2) == NUL)
    ensures StringFrom(input, '"', j) == (text, last + 2)
  {
    hide Unit;
  }

  lemma NextTurn(input: string, j: nat, text: string, last: nat)
    requires Unit(input, j) == (text, last) && At(input, last + 1) != '"' && At(input, last + 2) != NUL && j < |input|
    ensures StringFrom(input, '"', j) == (text + StringFrom(input, '"', last + 1).0, StringFrom(input, '"', last + 1).1)
  {
    hide Unit;
  }

  /** The text from character k on begins with that character's escape. */
  lemma SplitRest(input: string, j: nat, s: string, k: nat)
    requires k < |s| && Stands(input, j, EscapeAll(s[k..]) + "\"")
    ensures Unit(input, j) == ([s[k]], j + |EscapeChar(s[k])| - 1) && j < |input|
    ensures Stands(input, j + |EscapeChar(s[k])|, EscapeAll(s[k + 1..]) + "\"")
    ensures |EscapeAll(s[k..])| == |EscapeChar(s[k])| + |EscapeAll(s[k + 1..])|
  {
    hide Unit, Stands, EscapeChar;
    var first := EscapeChar(s[k]);
    assert s[k..][1..] == s[k + 1..];
    assert EscapeAll(s[k..]) == first + EscapeAll(s[k + 1..]);
    assert EscapeAll(s[k..]) + "\"" == first + (EscapeAll(s[k + 1..]) + "\"");
    StandsSplit(input, j, first, EscapeAll(s[k + 1..]) + "\"");
    UnitReads(input, j, s[k]);
    NotEmpty(input, j, s[k]);
  }

  lemma NotEmpty(input: string, j: nat, c: char)
    requires Stands(input, j, EscapeChar(c))
    ensures j < |input| && |EscapeChar(c)| > 0
  {
  }

  /** The reader inside the literal: with the text from character k on still to be
      read and no hidden NUL in it, it reads exactly that text and stops behind the quote. */
  lemma {:induction false} ReadsRest(input: string, j: nat, s: string, k: nat)
    requires k < |s| && Stands(input, j, EscapeAll(s[k..]) + "\"")
    requires forall i {:trigger Hidden(s, i)} :: k < i < |s| ==> !Hidden(s, i)
    ensures StringFrom(input, '"', j) == (s[k..], j + |EscapeAll(s[k..])| + 1)
    decreases |s| - k
  {
    hide Unit, Stands, EscapeAll, EscapeChar, StringFrom, Hidden, At;
    SplitRest(input, j, s, k);
    var last := j + |EscapeChar(s[k])| - 1;
    AfterChar(input, last + 1, s, k + 1);
    if k + 1 == |s| {
      LastTurn(input, j, [s[k]], last);
      assert s[k..] == [s[k]];
    } else {
      NotTheEnd(input, last + 1, s, k + 1);
      NextTurn(input, j, [s[k]], last);
      ReadsRest(input, last + 1, s, k + 1);
      assert [s[k]] + s[k + 1..] == s[k..];
    }
  }

  /** Behind the last character stands the quote, behind any other its successor's escape. */
  lemma AfterChar(input: string, j: nat, s: string, k: nat)
    requires k <= |s| && Stands(input, j, EscapeAll(s[k..]) + "\"")
    ensures At(input, j) == '"' <==> k == |s|
    ensures k == |s| ==> EscapeAll(s[k..]) == ""
    ensures k < |s| && !IsSpecial(s[k]) ==> At(input, j) == s[k]
  {
    StandsAt(input, j, EscapeAll(s[k..]) + "\"", 0);
    if k < |s| { FirstOf(s[k..]); }
  }

  /** What the reader peeks at behind character k - 1 (escaped or not) is no end of input. */
  lemma NotTheEnd(input: string, j: nat, s: string, k: nat)
    requires 0 < k < |s| && Stands(input, j, EscapeAll(s[k..]) + "\"")
    requires k + 1 < |s| ==> !Hidden(s, k + 1)
    ensures At(input, j + 1) != NUL
  {
    hide Stands, Hidden, EscapeAll;
    SplitRest(input, j, s, k);
    AfterChar(input, j + |EscapeChar(s[k])|, s, k + 1);
    if IsSpecial(s[k]) {
      SecondOf(input, j, s, k);
    } else if k + 1 < |s| {
      HiddenMeans(s, k + 1);
      SpecialStarts(input, j + 1, s, k + 1);
    }
  }

  lemma HiddenMeans(s: string, k: nat)
    requires k < |s|
    ensures Hidden(s, k) <==> k >= 2 && s[k] == NUL && !IsSpecial(s[k - 1])
  {
  }

  lemma SecondOf(input: string, j: nat, s: string, k: nat)
    requires k < |s| && IsSpecial(s[k]) && Stands(input, j, EscapeAll(s[k..]) + "\"")
    ensures At(input, j + 1) == EscapeChar(s[k])[1] != NUL
  {
    var text := EscapeAll(s[k..]) + "\"";
    assert EscapeAll(s[k..]) == EscapeChar(s[k]) + EscapeAll(s[k..][1..]);
    StandsAt(input, j, text, 1);
  }

  lemma SpecialStarts(input: string, j: nat, s: string, k: nat)
    requires k < |s| && Stands(input, j, EscapeAll(s[k..]) + "\"")
    ensures At(input, j) == if IsSpecial(s[k]) then '\\' else s[k]
  {
    StandsAt(input, j, EscapeAll(s[k..]) + "\"", 0);
    FirstOf(s[k..]);
  }

  /** The first hidden NUL, if there is one. */
  lemma {:induction false} FirstHidden(s: string, n: nat) returns (k: nat)
    requires n <= |s|
    ensures k <= n && (k < n ==> Hidden(s, k)) && forall i {:trigger Hidden(s, i)} :: 0 <= i < k ==> !Hidden(s, i)
    decreases n
  {
    if n == 0 {
      k := 0;
    } else {
      k := FirstHidden(s, n - 1);
      if k == n - 1 && !Hidden(s, n - 1) { k := n; }
    }
  }

  lemma PlainLength(c: char)
    requires !IsSpecial(c)
    ensures |EscapeChar(c)| == 1
  {
  }

  /** A hidden NUL at i ends the text before the character in front of it. */
  lemma {:induction false} StopsBefore(input: string, j: nat, s: string, k: nat, i: nat)
    requires k + 2 <= i < |s| && Hidden(s, i) && Stands(input, j, EscapeAll(s[k..]) + "\"")
    requires forall m {:trigger Hidden(s, m)} :: 0 <= m < i ==> !Hidden(s, m)
    ensures StringFrom(input, '"', j).0 == s[k..i - 1]
    decreases |s| - k
  {
    hide Unit, Stands, EscapeAll, EscapeChar, StringFrom, Hidden, At;
    SplitRest(input, j, s, k);
    var last := j + |EscapeChar(s[k])| - 1;
    AfterChar(input, last + 1, s, k + 1);
    if k + 2 == i {
      HiddenMeans(s, i);
      SplitRest(input, last + 1, s, k + 1);
      SpecialStarts(input, last + 2, s, i) by { PlainLength(s[k + 1]); }
      LastTurn(input, j, [s[k]], last);
      assert s[k..i - 1] == [s[k]];
    } else {
      NotTheEnd(input, last + 1, s, k + 1);
      NextTurn(input, j, [s[k]], last);
      StopsBefore(input, last + 1, s, k + 1, i);
      assert [s[k]] + s[k + 1..i - 1] == s[k..i - 1];
    }
  }

  predicate NothingHidden(s: string) {
    forall k {:trigger Hidden(s, k)} :: 0 <= k < |s| ==> !Hidden(s, k)
  }

  /** What the string reader makes of a printed string. */
  function ReadBack(s: string): (string, nat) {
    StringAt(Inspect(s), 0)
  }

  lemma Opening(s: string)
    ensures
      var input := Inspect(s);
      && At(input, 0) == '"' && Stands(input, 1, EscapeAll(s) + "\"") && |input| == |EscapeAll(s)| + 2
      && (s != "" ==> At(input, 1) != '"') && (s == "" ==> At(input, 1) == '"')
  {
    InspectIsMap(s);
    var input := Inspect(s);
    assert input[1..|input|] == EscapeAll(s) + "\"";
    if s != "" {
      FirstOf(s);
      StandsAt(input, 1, EscapeAll(s) + "\"", 0);
    }
  }

  /** Printing and reading are inverse exactly on the strings without a hidden NUL: those
      are read back whole, and the reader then stands at the end of the input; any other
      string comes back shorter than it was. */
  lemma PrintedStringsReadBack(s: string)
    ensures NothingHidden(s) ==> ReadBack(s) == (s, |Inspect(s)|)
    ensures !NothingHidden(s) ==> |ReadBack(s).0| < |s| && ReadBack(s).0 == s[..|ReadBack(s).0|]
    ensures ReadBack(s).0 == s <==> NothingHidden(s)
  {
    var input := Inspect(s);
    Opening(s);
    if s != "" {
      assert s[0..] == s;
      if NothingHidden(s) {
        ReadsRest(input, 1, s, 0);
      } else {
        var i := FirstHidden(s, |s|);
        StopsBefore(input, 1, s, 0, i);
        assert s[0..i - 1] == s[..i - 1];
      }
    }
  }

  /** A NUL-free string has nothing to hide. */
  lemma NoNulNothingHidden(s: string)
    requires NUL !in s
    ensures NothingHidden(s)
  {
  }

  /** The lexer reads a printed string as one string token with the string as its literal,
      and then the end of the input, exactly if nothing is hidden in it. */
  lemma PrintedStringsLex(s: string)
    ensures TokensFrom(Inspect(s), START, 2) == [Token(Str, s, 0), Token(Eof, "", 0)] <==> NothingHidden(s)
  {
    hide StringAt, Inspect;
    var input := Inspect(s);
    PrintedStringsReadBack(s);
    Opening(s);
    var after := Behind(input, START);
    assert TokensFrom(input, START, 2) == [Follow(input, START).token, Follow(input, after).token] by {
      TwoTokens(input);
    }
    FirstIsString(input);
    if NothingHidden(s) {
      assert after == Place(|input|, Initial, 0);
      EndOfInput(input, |input|);
    }
  }

  lemma TwoTokens(input: string)
    ensures TokensFrom(input, START, 2) == [Follow(input, START).token, Follow(input, Behind(input, START)).token]
  {
    hide Follow;
    var after := Behind(input, START);
    assert TokensFrom(input, after, 1) == [Follow(input, after).token] + TokensFrom(input, Behind(input, after), 0);
  }

  lemma FirstIsString(input: string)
    requires At(input, 0) == '"'
    ensures Follow(input, START) == Lexed(Token(Str, StringAt(input, 0).0, 0), StringAt(input, 0).1, Initial, 0)
  {
    hide StringAt;
    assert SpaceEnd(input, 0) == 0;
  }

  lemma EndOfInput(input: string, i: nat)
    requires i >= |input|
    ensures NextFrom(input, i, Initial, 0) == Lexed(Token(Eof, "", 0), i + 1, Initial, 0)
  {
    assert SpaceEnd(input, i) == i;
  }
}
