/**
 reverseString (vm/string.go): the clusters of a string, each a rune with the
 combining marks behind it, in reverse order; invalid runes are dropped.
 */
module Reversal {

  const RUNE_ERROR := '\U{FFFD}'

  /** unicode.Is(Mn), (Me) or (Mc); the replacement character is none of these. */
  type Combining = f: char -> bool | !f('\U{FFFD}') witness c => false

  predicate Invalid(s: string) { '\U{FFFD}' in s }

  /** The end of the cluster: the first position from j on with no combining mark. */
  function ClusterEnd(comb: Combining, s: string, j: nat): (e: nat)
    requires j <= |s|
    ensures j <= e <= |s|
    ensures forall k :: j <= k < e ==> comb(s[k])
    ensures e < |s| ==> !comb(s[e])
    decreases |s| - j
  {
    if j < |s| && comb(s[j]) then ClusterEnd(comb, s, j + 1) else j
  }

  function Clusters(comb: Combining, s: string): seq<string> {
    if s == "" then []
    else if s[0] == RUNE_ERROR then Clusters(comb, s[1..])
    else var j := ClusterEnd(comb, s, 1); [s[..j]] + Clusters(comb, s[j..])
  }

  function Flat(cs: seq<string>): string {
    if cs == [] then "" else cs[0] + Flat(cs[1..])
  }

  function Backward(cs: seq<string>): (r: seq<string>)
    ensures |r| == |cs| && forall k :: 0 <= k < |cs| ==> r[k] == cs[|cs| - 1 - k]
  {
    if cs == [] then [] else Backward(cs[1..]) + [cs[0]]
  }

  function Reversed(comb: Combining, s: string): string {
    Flat(Backward(Clusters(comb, s)))
  }

  // ---------------------------------------------------------------- clusters

  /** A rune that is valid and no mark, and only marks behind it. */
  predicate IsCluster(comb: Combining, c: string) {
    |c| > 0 && c[0] != '\U{FFFD}' && !comb(c[0]) && forall k :: 1 <= k < |c| ==> comb(c[k])
  }

  predicate AllClusters(comb: Combining, cs: seq<string>) {
    forall k :: 0 <= k < |cs| ==> IsCluster(comb, cs[k])
  }

  lemma {:induction false} FlatBoth(a: seq<string>, b: seq<string>)
    ensures Flat(a + b) == Flat(a) + Flat(b)
  {
    if a == [] {
      assert a + b == b;
    } else {
      FlatBoth(a[1..], b);
      assert (a + b)[1..] == a[1..] + b;
    }
  }

  lemma FlatStarts(comb: Combining, cs: seq<string>)
    requires AllClusters(comb, cs) && cs != []
    ensures Flat(cs) != "" && !comb(Flat(cs)[0])
  {
  }

  lemma {:induction false} EndOfCluster(comb: Combining, c: string, rest: string, j: nat)
    requires 1 <= j <= |c| && (forall k :: j <= k < |c| ==> comb(c[k])) && (rest != "" ==> !comb(rest[0]))
    ensures ClusterEnd(comb, c + rest, j) == |c|
    decreases |c| - j
  {
    if j < |c| { EndOfCluster(comb, c, rest, j + 1); }
  }

  /** Text made of clusters falls apart into just these. */
  lemma {:induction false} ClustersOfFlat(comb: Combining, cs: seq<string>)
    requires AllClusters(comb, cs)
    ensures Clusters(comb, Flat(cs)) == cs
  {
    if cs != [] {
      var rest := cs[1..];
      ClustersOfFlat(comb, rest);
      if rest != [] { FlatStarts(comb, rest); }
      EndOfCluster(comb, cs[0], Flat(rest), 1);
      assert Flat(cs)[..|cs[0]|] == cs[0] && Flat(cs)[|cs[0]|..] == Flat(rest);
    }
  }

  /** A text of valid runes is its clusters in a row, and all but perhaps the first begin with no mark. */
  lemma {:induction false} FlatOfClusters(comb: Combining, s: string)
    requires !Invalid(s)
    ensures Flat(Clusters(comb, s)) == s
    ensures s != "" && !comb(s[0]) ==> AllClusters(comb, Clusters(comb, s))
    ensures s != "" ==>
      |Clusters(comb, s)| > 0 && |Clusters(comb, s)[0]| > 0 && AllClusters(comb, Clusters(comb, s)[1..])
  {
    if s != "" {
      assert s[0] in s;
      var j := ClusterEnd(comb, s, 1);
      FlatOfClusters(comb, s[j..]);
      assert s == s[..j] + s[j..];
      assert Clusters(comb, s)[1..] == Clusters(comb, s[j..]);
    }
  }

  lemma BackwardTwice(cs: seq<string>)
    ensures Backward(Backward(cs)) == cs
  {
  }

  /** However a text is made of runes that are valid and no marks, each with marks behind it: reversing writes
      these clusters in reverse order, each as it is. */
  lemma ReversesClusters(comb: Combining, cs: seq<string>)
    requires AllClusters(comb, cs)
    ensures Reversed(comb, Flat(cs)) == Flat(Backward(cs))
  {
    ClustersOfFlat(comb, cs);
  }

  lemma {:induction false} FlatBackward(cs: seq<string>)
    ensures multiset(Flat(Backward(cs))) == multiset(Flat(cs))
  {
    if cs != [] {
      FlatBackward(cs[1..]);
      FlatBoth(Backward(cs[1..]), [cs[0]]);
      FlatOne(cs[0]);
    }
  }

  lemma DropsBoth(a: string, b: string)
    ensures multiset(a + b)['\U{FFFD}' := 0] == multiset(a)['\U{FFFD}' := 0] + multiset(b)['\U{FFFD}' := 0]
  {
  }

  lemma DropsNone(a: string)
    requires '\U{FFFD}' !in a
    ensures multiset(a)['\U{FFFD}' := 0] == multiset(a)
  {
  }

  lemma {:induction false} FlatDrops(comb: Combining, s: string)
    ensures multiset(Flat(Clusters(comb, s))) == multiset(s)['\U{FFFD}' := 0]
  {
    if s != "" {
      if s[0] == '\U{FFFD}' {
        FlatDrops(comb, s[1..]);
        assert s == [s[0]] + s[1..];
        DropsBoth([s[0]], s[1..]);
      } else {
        var j := ClusterEnd(comb, s, 1);
        FlatDrops(comb, s[j..]);
        assert s == s[..j] + s[j..];
        DropsBoth(s[..j], s[j..]);
        DropsNone(s[..j]) by {
          forall k | 0 <= k < j ensures s[k] != '\U{FFFD}' {
            if k > 0 { assert comb(s[k]); }
          }
        }
      }
    }
  }

  /** Reversing keeps every rune, as often as it is there, but the invalid ones. */
  lemma KeepsValidRunes(comb: Combining, s: string)
    ensures multiset(Reversed(comb, s)) == multiset(s)['\U{FFFD}' := 0]
  {
    FlatDrops(comb, s);
    FlatBackward(Clusters(comb, s));
  }

  /** Reversing turns the order of the clusters round and leaves each as it is. */
  lemma ReversedClusters(comb: Combining, s: string)
    requires '\U{FFFD}' !in s && (s != "" ==> !comb(s[0]))
    ensures Clusters(comb, Reversed(comb, s)) == Backward(Clusters(comb, s))
  {
    FlatOfClusters(comb, s);
    ClustersOfFlat(comb, Backward(Clusters(comb, s)));
  }

  // -------------------------------------------------------------- involution

  lemma {:induction false} NoErrors(comb: Combining, s: string)
    ensures forall c :: c in Clusters(comb, s) ==> !Invalid(c)
  {
    if s != "" {
      if s[0] == RUNE_ERROR {
        NoErrors(comb, s[1..]);
      } else {
        NoErrors(comb, s[ClusterEnd(comb, s, 1)..]);
      }
    }
  }

  lemma {:induction false} FlatValid(cs: seq<string>)
    requires forall c :: c in cs ==> !Invalid(c)
    ensures !Invalid(Flat(cs))
  {
    if cs != [] {
      assert cs[0] in cs && forall c :: c in cs[1..] ==> c in cs;
      FlatValid(cs[1..]);
      assert Flat(cs) == cs[0] + Flat(cs[1..]);
    }
  }

  lemma FlatPair(front: seq<string>, a: string, b: string)
    ensures Flat(front + [a, b]) == Flat(front + [a + b])
  {
    FlatBoth(front, [a, b]);
    FlatBoth(front, [a + b]);
    FlatOne(a + b);
    FlatOne(b);
    assert [a, b][1..] == [b];
  }

  lemma BackwardEnd(cs: seq<string>)
    requires |cs| > 1
    ensures Backward(cs) == Backward(cs[2..]) + [cs[1], cs[0]]
  {
    assert cs[1..][1..] == cs[2..];
    assert [cs[1]] + [cs[0]] == [cs[1], cs[0]];
  }

  /** With a mark in front of the text, the first cluster joins the second one when the text is reversed. */
  lemma FirstMarkJoins(comb: Combining, s: string)
    requires !Invalid(s) && s != "" && comb(s[0]) && ClusterEnd(comb, s, 1) < |s|
    ensures Reversed(comb, Reversed(comb, s)) != s
  {
    hide Flat, Backward, ClusterEnd, Clusters;
    var cs := Clusters(comb, s);
    FirstCluster(comb, s);
    var front, joined := Backward(cs[2..]), cs[1] + cs[0];
    BackwardEnd(cs);
    FlatPair(front, cs[1], cs[0]);
    assert Reversed(comb, s) == Flat(front + [joined]);
    assert IsCluster(comb, joined) && AllClusters(comb, front + [joined]) by {
      assert IsCluster(comb, cs[1..][0]) && cs[1..][0] == cs[1];
      forall k | 0 <= k < |front| ensures IsCluster(comb, front[k]) { assert front[k] == cs[1..][|cs| - 2 - k]; }
    }
    ClustersOfFlat(comb, front + [joined]);
    var back := Backward(front + [joined]);
    assert back[0] == joined && joined[0] == cs[1][0];
    FlatHead(back);
  }

  lemma FlatHead(cs: seq<string>)
    requires cs != [] && cs[0] != ""
    ensures Flat(cs) != "" && Flat(cs)[0] == cs[0][0]
  {
  }

  lemma FirstCluster(comb: Combining, s: string)
    requires !Invalid(s) && s != "" && comb(s[0]) && ClusterEnd(comb, s, 1) < |s|
    ensures
      var cs := Clusters(comb, s);
      && |cs| > 1 && AllClusters(comb, cs[1..]) && forall k :: 0 <= k < |cs[0]| ==> comb(cs[0][k])
  {
    var j := ClusterEnd(comb, s, 1);
    assert s[0] in s && s[j] in s;
    FlatOfClusters(comb, s);
    assert Clusters(comb, s) == [s[..j]] + Clusters(comb, s[j..]);
  }

  lemma FlatOne(c: string)
    ensures Flat([c]) == c
  {
    assert Flat([c][1..]) == "";
  }

  /** reverseString is its own inverse exactly on texts without invalid runes that do
      not begin with a mark, or are a single cluster. */
  lemma ReverseTwice(comb: Combining, s: string)
    ensures Reversed(comb, Reversed(comb, s)) == s
       <==> '\U{FFFD}' !in s && (s == "" || !comb(s[0]) || ClusterEnd(comb, s, 1) == |s|)
  {
    if Invalid(s) {
      var r := Reversed(comb, s);
      NoErrors(comb, r);
      FlatValid(Backward(Clusters(comb, r)));
    } else if s == "" || !comb(s[0]) {
      FlatOfClusters(comb, s);
      ReversedClusters(comb, s);
      BackwardTwice(Clusters(comb, s));
    } else if ClusterEnd(comb, s, 1) == |s| {
      assert s[0] in s && s[..|s|] == s && Clusters(comb, s[|s|..]) == [];
      assert Clusters(comb, s) == [s] && Backward([s]) == [s];
      FlatOne(s);
    } else {
      FirstMarkJoins(comb, s);
    }
  }

  // ------------------------------------------------------------- the program

  lemma {:induction false} ClusterEndFrom(comb: Combining, s: string, i: nat, j: nat)
    requires i <= j <= |s|
    ensures ClusterEnd(comb, s[i..], j - i) == ClusterEnd(comb, s, j) - i
    decreases |s| - j
  {
    if j < |s| && comb(s[j]) { ClusterEndFrom(comb, s, i, j + 1); }
  }

  /** What the clusters from i on add in front of what is already written. */
  lemma ReversedStep(comb: Combining, s: string, i: nat)
    requires i < |s|
    ensures s[i] == RUNE_ERROR ==> Reversed(comb, s[i..]) == Reversed(comb, s[i + 1..])
    ensures s[i] != RUNE_ERROR ==>
              var j := ClusterEnd(comb, s, i + 1);
              Reversed(comb, s[i..]) == Reversed(comb, s[j..]) + s[i..j]
  {
    assert s[i..][0] == s[i] && s[i..][1..] == s[i + 1..];
    if s[i] != RUNE_ERROR {
      var j := ClusterEnd(comb, s, i + 1);
      ClusterEndFrom(comb, s, i, i + 1);
      assert s[i..][..j - i] == s[i..j] && s[i..][j - i..] == s[j..];
      var rest := Clusters(comb, s[j..]);
      assert ([s[i..j]] + rest)[1..] == rest;
      FlatBoth(Backward(rest), [s[i..j]]);
      FlatOne(s[i..j]);
    }
  }

  lemma NothingReversed(comb: Combining)
    ensures Reversed(comb, "") == ""
  {
  }

  /** The innermost loop: copies a cluster in front of what is already written. */
  method CopyCluster(target: array<char>, str: string, i: nat, j: nat, end: nat) returns (start: nat)
    requires i <= j <= |str| && j - i <= end <= target.Length
    modifies target
    ensures start == end - (j - i) && target[start..] == str[i..j] + old(target[end..])
  {
    start := end;
    var k := j - 1;
    while k >= i
      invariant i - 1 <= k < j && start == end - (j - 1 - k)
      invariant target[start..] == str[k + 1..j] + old(target[end..])
      decreases k
    {
      start := start - 1;
      target[start] := str[k];
      k := k - 1;
    }
  }

  /** The clusters are copied into an array from its end. */
  method ReverseString(comb: Combining, str: string) returns (r: string)
    ensures r == Reversed(comb, str)
  {
    hide Reversed;
    NothingReversed(comb);
    if str == "" { return ""; }
    var target := new char[|str|];
    var start := target.Length;
    var i := 0;
    assert str[0..] == str && target[start..] == "";
    while i < |str|
      invariant 0 <= i <= |str| && |str| - i <= start <= target.Length
      invariant Reversed(comb, str) == Reversed(comb, str[i..]) + target[start..]
    {
      ReversedStep(comb, str, i);
      if str[i] == RUNE_ERROR {
        i := i + 1;
        continue;
      }
      var j := i + 1;
      while j < |str| && comb(str[j])
        invariant i < j <= |str| && ClusterEnd(comb, str, j) == ClusterEnd(comb, str, i + 1)
      {
        j := j + 1;
      }
      start := CopyCluster(target, str, i, j, start);
      i := j;
    }
    assert str[i..] == "";
    r := target[start..];
  }
}
