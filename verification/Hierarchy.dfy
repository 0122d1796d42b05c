/**
 The class hierarchy (vm/class.go): classes and modules linked by superClass
 pointers, modules mixed in as copies that share the module's method table.
 Every class's superclass chain is finite, and method lookup is the first
 definition along it, in every hierarchy that class definition, include, extend
 and method definition can build.
 */
module Hierarchies {
  import opened Wrappers

  /** A method object; only which one it is matters. */
  type MethodObject = int

  const OBJECT := "Object"

  // ------------------------------------------------------- chains, as values

  type Links = map<RClass, RClass?>
  type Chains = map<RClass, seq<RClass>>
  type Tables = map<RClass, map<string, MethodObject>>

  /** Each class's chain: itself, then its superclass's chain.  It ends at Object,
      which is its own superclass, or at a class without a superclass. */
  ghost predicate ChainOf(up: Links, root: RClass, chains: Chains, c: RClass) {
    && c in up && c in chains
    && if c == root then up[c] == root && chains[c] == [root]
       else if up[c] == null then chains[c] == [c]
       else up[c] in chains && chains[c] == [c] + chains[up[c]]
  }

  ghost predicate Chained(up: Links, root: RClass, chains: Chains) {
    && up.Keys == chains.Keys && root in chains
    && forall c :: c in chains ==> ChainOf(up, root, chains, c)
  }

  /** The first definition along a chain. */
  function First(chain: seq<RClass>, tables: Tables, name: string): Option<MethodObject> {
    if chain == [] then None
    else if chain[0] in tables && name in tables[chain[0]] then Some(tables[chain[0]][name])
    else First(chain[1..], tables, name)
  }

  /** The chain with c's own continuation replaced. */
  function Redirect(s: seq<RClass>, c: RClass, tail: seq<RClass>): (r: seq<RClass>)
    ensures c !in s ==> r == s
  {
    if s == [] then []
    else if s[0] == c then [c] + tail
    else [s[0]] + Redirect(s[1..], c, tail)
  }

  /** The chain with x put right behind c, if c is on it. */
  function InsertAfter(s: seq<RClass>, c: RClass, x: RClass): (r: seq<RClass>)
    ensures c !in s ==> r == s
  {
    if s == [] then []
    else if s[0] == c then [c, x] + s[1..]
    else [s[0]] + InsertAfter(s[1..], c, x)
  }

  ghost function Relinked(chains: Chains, c: RClass, tail: seq<RClass>): Chains {
    map d | d in chains :: Redirect(chains[d], c, tail)
  }

  /** Pointing c at a class that does not descend from c keeps all chains finite. */
  lemma RelinkChained(up: Links, root: RClass, chains: Chains, c: RClass, sc: RClass)
    requires Chained(up, root, chains) && c in chains && sc in chains && c != root && c !in chains[sc]
    ensures Chained(up[c := sc], root, Relinked(chains, c, chains[sc]))
  {
    var after := Relinked(chains, c, chains[sc]);
    assert up[c := sc].Keys == up.Keys == after.Keys;
    forall d | d in after ensures ChainOf(up[c := sc], root, after, d) {
      assert ChainOf(up, root, chains, d);
      if d != c && d != root && up[d] != null {
        assert chains[d][1..] == chains[up[d]];
      }
    }
  }

  /** A chain from any of its classes on is that class's chain. */
  lemma {:induction false} SuffixIsChain(up: Links, root: RClass, chains: Chains, d: RClass, i: nat)
    requires Chained(up, root, chains) && d in chains && i < |chains[d]|
    ensures chains[d][i] in chains && chains[d][i..] == chains[chains[d][i]]
    decreases i
  {
    assert ChainOf(up, root, chains, d);
    if i > 0 {
      SuffixIsChain(up, root, chains, up[d], i - 1);
      assert chains[d][i..] == chains[up[d]][i - 1..];
    }
  }

  /** No class is twice on a chain. */
  lemma {:induction false} ChainNoDup(up: Links, root: RClass, chains: Chains, d: RClass, i: nat, j: nat)
    requires Chained(up, root, chains) && d in chains && i < j < |chains[d]|
    ensures chains[d][i] != chains[d][j]
  {
    SuffixIsChain(up, root, chains, d, i);
    SuffixIsChain(up, root, chains, d, j);
  }

  lemma RedirectStep(d: RClass, rest: seq<RClass>, c: RClass, x: RClass, tail: seq<RClass>)
    ensures Redirect([d] + rest, c, tail) == if d == c then [c] + tail else [d] + Redirect(rest, c, tail)
    ensures InsertAfter([d] + rest, c, x) == if d == c then [c] + ([x] + rest) else [d] + InsertAfter(rest, c, x)
  {
    assert ([d] + rest)[1..] == rest;
    assert [c, x] + rest == [c] + ([x] + rest);
  }

  /** Redirecting c to a copy that continues as c did is putting the copy behind c. */
  lemma {:induction false} RedirectInserts(up: Links, root: RClass, chains: Chains, d: RClass, c: RClass, x: RClass)
    requires Chained(up, root, chains) && d in chains && c in chains && c != root && up[c] != null
    ensures Redirect(chains[d], c, [x] + chains[up[c]]) == InsertAfter(chains[d], c, x)
    decreases |chains[d]|
  {
    hide Redirect, InsertAfter;
    assert ChainOf(up, root, chains, d);
    var tail := [x] + chains[up[c]];
    if d == root || up[d] == null {
      assert [d] + [] == chains[d] && c !in chains[d];
    } else {
      RedirectStep(d, chains[up[d]], c, x, tail);
      if d != c { RedirectInserts(up, root, chains, up[d], c, x); }
    }
  }

  // ------------------------------------------------------------ what lookups see

  lemma {:induction false} FirstOfBoth(a: seq<RClass>, b: seq<RClass>, tables: Tables, name: string)
    ensures First(a + b, tables, name) ==
      if First(a, tables, name).Some? then First(a, tables, name) else First(b, tables, name)
  {
    if a == [] {
      assert a + b == b;
    } else {
      FirstOfBoth(a[1..], b, tables, name);
      assert (a + b)[1..] == a[1..] + b;
    }
  }

  /** The definition found is the first: none before it along the chain defines the name. */
  lemma {:induction false} FirstIsFirst(chain: seq<RClass>, tables: Tables, name: string)
    ensures First(chain, tables, name).None? <==> forall i :: 0 <= i < |chain| && chain[i] in tables ==>
      name !in tables[chain[i]]
    ensures First(chain, tables, name).Some? ==>
              exists i :: 0 <= i < |chain| && chain[i] in tables && name in tables[chain[i]]
                          && First(chain, tables, name) == Some(tables[chain[i]][name])
                          && forall j :: 0 <= j < i && chain[j] in tables ==> name !in tables[chain[j]]
  {
    if chain != [] {
      var rest := chain[1..];
      FirstIsFirst(rest, tables, name);
      assert forall i :: 1 <= i < |chain| ==> chain[i] == rest[i - 1];
      if !(chain[0] in tables && name in tables[chain[0]]) && First(rest, tables, name).Some? {
        var i :| 0 <= i < |rest| && rest[i] in tables && name in tables[rest[i]]
                 && First(rest, tables, name) == Some(tables[rest[i]][name])
                 && forall j :: 0 <= j < i && rest[j] in tables ==> name !in tables[rest[j]];
        assert chain[i + 1] == rest[i];
        forall j | 0 <= j < i + 1 && chain[j] in tables ensures name !in tables[chain[j]] {
          if j > 0 { assert rest[j - 1] == chain[j]; }
        }
      }
    }
  }

  /** What lookup finds once x is behind c: what c and the classes before it
      define, then what x defines, then what was found before. */
  lemma {:induction false} InsertedLookup(s: seq<RClass>, c: RClass, x: RClass, tables: Tables, name: string, i: nat)
    requires i < |s| && s[i] == c && c !in s[..i]
    ensures First(InsertAfter(s, c, x), tables, name)
         == if First(s[..i + 1], tables, name).Some? then First(s, tables, name)
            else if x in tables && name in tables[x] then Some(tables[x][name])
            else First(s, tables, name)
    decreases i
  {
    assert s == s[..i + 1] + s[i + 1..];
    FirstOfBoth(s[..i + 1], s[i + 1..], tables, name);
    InsertedAt(s, c, x, i);
    FirstOfBoth(s[..i + 1], [x] + s[i + 1..], tables, name);
    assert s[..i + 1] + [x] + s[i + 1..] == s[..i + 1] + ([x] + s[i + 1..]);
    assert ([x] + s[i + 1..])[1..] == s[i + 1..];
  }

  lemma {:induction false} InsertedAt(s: seq<RClass>, c: RClass, x: RClass, i: nat)
    requires i < |s| && s[i] == c && c !in s[..i]
    ensures InsertAfter(s, c, x) == s[..i + 1] + [x] + s[i + 1..]
    decreases i
  {
    if i > 0 {
      assert s[0] == s[..i][0] != c;
      assert s[1..][..i - 1] == s[..i][1..];
      InsertedAt(s[1..], c, x, i - 1);
      assert s[1..][..i] == s[1..i + 1] && s[1..][i..] == s[i + 1..];
    }
  }

  lemma {:induction false} IndexOn(s: seq<RClass>, c: RClass) returns (i: nat)
    requires c in s
    ensures i < |s| && s[i] == c && c !in s[..i]
  {
    if s[0] == c {
      i := 0;
    } else {
      i := IndexOn(s[1..], c);
      assert s[..i + 1] == [s[0]] + s[1..][..i];
      i := i + 1;
    }
  }

  /** Mixing a copy x of m into c: classes that do not descend from c find what they
      found; c and its descendants find what c or a class before it defines, then
      what m defines, then what they found. */
  lemma IncludeLookups(up: Links, root: RClass, chains: Chains, tables: Tables, c: RClass, m: RClass, x: RClass,
                       d: RClass, name: string)
    returns (i: nat)
    requires Chained(up, root, chains) && tables.Keys == chains.Keys && {c, m, d} <= chains.Keys && x !in chains
    ensures
      var s, found := chains[d], First(Included(chains, c, x)[d], tables[x := tables[m]], name);
      if c !in s then found == First(s, tables, name)
      else
        && i < |s| && s[i] == c && c !in s[..i]
        && found == if First(s[..i + 1], tables, name).Some? then First(s, tables, name)
                    else if name in tables[m] then Some(tables[m][name])
                    else First(s, tables, name)
  {
    i := 0;
    var s, more := chains[d], tables[x := tables[m]];
    AllOnChain(up, root, chains, d);
    FirstAgrees(s, tables, more, name);
    if c in s {
      i := IndexOn(s, c);
      InsertedLookup(s, c, x, more, name, i);
      FirstAgrees(s[..i + 1], tables, more, name);
    }
  }

  /** alreadyInherit compares with the module itself, of which only copies are ever on
      a chain: a module just included is not noticed, and a second include makes a
      second copy, which changes no lookup. */
  lemma IncludeTwice(s: seq<RClass>, root: RClass, tables: Tables, m: RClass, x: RClass, y: RClass, name: string)
    requires |s| > 1 && x != m && Inherited(s, root, m) == Some(false) && x in tables && y in tables
    requires tables[x] == tables[y]
    ensures Inherited(InsertAfter(s, s[0], x), root, m) == Some(false)
    ensures First(InsertAfter(InsertAfter(s, s[0], x), s[0], y), tables, name)
      == First(InsertAfter(s, s[0], x), tables, name)
  {
    var once := InsertAfter(s, s[0], x);
    assert once == [s[0], x] + s[1..] && once[1..] == [x] + s[1..];
    var twice := InsertAfter(once, s[0], y);
    assert twice == [s[0], y] + once[1..] && twice[1..] == [y] + once[1..] && twice[1..][1..] == once[1..];
    assert once[1..][0] == x;
  }

  function Last(s: seq<RClass>): RClass
    requires |s| > 0
  {
    s[|s| - 1]
  }

  /** Where chains end after a class is given another superclass, or none. */
  lemma {:induction false} RedirectLast(s: seq<RClass>, c: RClass, tail: seq<RClass>)
    requires |s| > 0
    ensures |Redirect(s, c, tail)| > 0
    ensures Last(Redirect(s, c, tail)) == if c !in s then Last(s) else if tail == [] then c else Last(tail)
  {
    if |s| > 1 && s[0] != c {
      RedirectLast(s[1..], c, tail);
      assert Last(s) == Last(s[1..]);
    }
  }

  /** A copy put behind a class with a superclass leaves every chain's end. */
  lemma {:induction false} InsertLast(s: seq<RClass>, c: RClass, x: RClass)
    requires |s| > 0 && Last(s) != c
    ensures |InsertAfter(s, c, x)| > 0 && Last(InsertAfter(s, c, x)) == Last(s)
  {
    if |s| > 1 && s[0] != c {
      assert Last(s) == Last(s[1..]);
      InsertLast(s[1..], c, x);
    }
  }

  ghost predicate EndsAt(chains: Chains, d: RClass, root: RClass)
    requires d in chains
  {
    |chains[d]| > 0 && Last(chains[d]) == root
  }

  /** A chain ends at the root exactly if every class on it has a superclass. */
  lemma {:induction false} EndsAtRoot(up: Links, root: RClass, chains: Chains, d: RClass)
    requires Chained(up, root, chains) && d in chains
    ensures |chains[d]| > 0 && (EndsAt(chains, d, root) <==> forall c :: c in chains[d] && c in up ==> up[c] != null)
    decreases |chains[d]|
  {
    assert ChainOf(up, root, chains, d);
    if d != root && up[d] != null {
      EndsAtRoot(up, root, chains, up[d]);
      assert forall c :: c in chains[d] <==> c == d || c in chains[up[d]];
      assert Last(chains[d]) == Last(chains[up[d]]);
    } else {
      assert d in chains[d];
    }
  }

  /** A class with a superclass is the last one on no chain. */
  lemma {:induction false} NotLast(up: Links, root: RClass, chains: Chains, c: RClass, d: RClass)
    requires Chained(up, root, chains) && {c, d} <= chains.Keys && c != root && up[c] != null
    ensures |chains[d]| > 0 && Last(chains[d]) != c
    decreases |chains[d]|
  {
    assert ChainOf(up, root, chains, d);
    if d != root && up[d] != null {
      NotLast(up, root, chains, c, up[d]);
      assert Last(chains[d]) == Last(chains[up[d]]);
    }
  }

  lemma {:induction false} FirstAgrees(s: seq<RClass>, a: Tables, b: Tables, name: string)
    requires forall c :: c in s && c in a ==>
      c in b && (name in a[c] <==> name in b[c]) && (name in a[c] ==> a[c][name] == b[c][name])
    requires forall c :: c in s && c in b ==> c in a
    ensures First(s, a, name) == First(s, b, name)
  {
    if s != [] {
      assert s[0] in s;
      FirstAgrees(s[1..], a, b, name);
    }
  }

  /** A table in which the name is new at position i, and undefined before it. */
  lemma {:induction false} FirstAt(s: seq<RClass>, tables: Tables, name: string, i: nat, f: MethodObject)
    requires i < |s| && s[i] in tables && name in tables[s[i]] && tables[s[i]][name] == f
    requires forall j :: 0 <= j < i && s[j] in tables && name in tables[s[j]] ==> tables[s[j]][name] == f
    ensures First(s, tables, name) == Some(f)
    decreases i
  {
    if i > 0 && !(s[0] in tables && name in tables[s[0]]) {
      FirstAt(s[1..], tables, name, i - 1, f);
    }
  }

  // ------------------------------------------------- when a relink is too much

  /** The class reached over n superClass pointers. */
  function Follow(up: Links, c: RClass?, n: nat): RClass? {
    if n == 0 || c == null then c
    else if c in up then Follow(up, up[c], n - 1) else null
  }

  /** Where a lookup that finds nothing ends: no superclass, or its own superclass. */
  predicate Stops(up: Links, c: RClass, n: nat) {
    var at := Follow(up, c, n);
    at == null || at !in up || up[at] == at
  }

  ghost predicate StopsEver(up: Links, c: RClass) {
    exists n: nat :: Stops(up, c, n)
  }

  lemma {:induction false} ChainStops(up: Links, root: RClass, chains: Chains, d: RClass)
    requires Chained(up, root, chains) && d in chains
    ensures Stops(up, d, |chains[d]|)
    decreases |chains[d]|
  {
    assert ChainOf(up, root, chains, d);
    if d == root {
      assert Follow(up, d, 0) == root;
      assert Follow(up, d, 1) == Follow(up, up[d], 0);
    } else if up[d] == null {
      assert Follow(up, d, 1) == Follow(up, up[d], 0);
    } else {
      ChainStops(up, root, chains, up[d]);
    }
  }

  lemma {:induction false} CycleFollows(up: Links, root: RClass, x: RClass, n: nat)
    requires root in up && x in up && root != x && up[root] == x && up[x] == root
    ensures Follow(up, root, n) == (if n % 2 == 0 then root else x)
    ensures Follow(up, x, n) == (if n % 2 == 0 then x else root)
    decreases n
  {
    if n > 0 { CycleFollows(up, root, x, n - 1); }
  }

  /** The first steps up are the chain; from its end on one stays at Object, or has run into nil. */
  lemma {:induction false} FollowsChain(up: Links, root: RClass, chains: Chains, d: RClass, n: nat)
    requires Chained(up, root, chains) && d in chains
    ensures |chains[d]| > 0
    ensures Follow(up, d, n) ==
      if n < |chains[d]| then chains[d][n] else if chains[d][|chains[d]| - 1] == root then root else null
    decreases n
  {
    assert ChainOf(up, root, chains, d);
    if n > 0 && up[d] != null {
      FollowsChain(up, root, chains, up[d], n - 1);
      assert chains[d] == [d] + chains[up[d]] || d == root;
    }
  }

  lemma Head(up: Links, root: RClass, chains: Chains, c: RClass)
    requires Chained(up, root, chains) && c in chains
    ensures |chains[c]| > 0 && chains[c][0] == c && (chains[c] == [root] <==> c == root)
  {
    assert ChainOf(up, root, chains, c);
  }

  lemma LeadsAbove(up: Links, root: RClass, chains: Chains, c: RClass, other: RClass)
    requires Chained(up, root, chains) && c in chains
    ensures |chains[c]| > 0
    ensures (exists n: nat :: n >= 1 && Follow(up, c, n) == other)
       <==> if c == root then other == root else other in chains[c][1..]
  {
    hide Follow, Chained;
    Head(up, root, chains, c);
    var s := chains[c];
    forall n: nat | n >= 1 && Follow(up, c, n) == other
      ensures if c == root then other == root else other in s[1..]
    {
      FollowsChain(up, root, chains, c, n);
      if c != root {
        var k := if n < |s| then n else |s| - 1;
        assert s[k] == other && k >= 1;
        assert s[1..][k - 1] == other;
      }
    }
    if c == root && other == root {
      FollowsChain(up, root, chains, c, 1);
    }
    if c != root && other in s[1..] {
      var i :| 0 <= i < |s[1..]| && s[1..][i] == other;
      FollowsChain(up, root, chains, c, i + 1);
      assert Follow(up, c, i + 1) == other;
    }
  }

  lemma LeadsToEnd(up: Links, root: RClass, chains: Chains, c: RClass)
    requires Chained(up, root, chains) && c in chains
    ensures |chains[c]| > 0
    ensures (exists n: nat :: Follow(up, c, n) == root) <==> Last(chains[c]) == root
    ensures (exists n: nat :: Follow(up, c, n) == null) <==> Last(chains[c]) != root
  {
    hide Follow;
    var s := chains[c];
    FollowsChain(up, root, chains, c, 0);
    RootLast(up, root, chains, c);
    FollowsChain(up, root, chains, c, |s| - 1);
    FollowsChain(up, root, chains, c, |s|);
    forall n: nat | Follow(up, c, n) == root ensures Last(s) == root { FollowsChain(up, root, chains, c, n); }
    forall n: nat | Follow(up, c, n) == null ensures Last(s) != root { FollowsChain(up, root, chains, c, n); }
  }

  /** What alreadyInherit finds out, said of the superclass pointers: yes, if they lead from the class to the other one
      in at least one step; otherwise no, if they lead to Object; otherwise they lead to nil, and so does it. */
  lemma InheritedByLinks(up: Links, root: RClass, chains: Chains, c: RClass, other: RClass)
    requires Chained(up, root, chains) && c in chains
    ensures |chains[c]| > 0
    ensures
      var r, found := Inherited(chains[c], root, other), exists n: nat :: n >= 1 && Follow(up, c, n) == other;
      && (r == Some(true) <==> found)
      && (r == Some(false) <==> !found && exists n: nat :: Follow(up, c, n) == root)
      && (r == None <==> !found && exists n: nat :: Follow(up, c, n) == null)
  {
    hide Follow, Chained;
    LeadsAbove(up, root, chains, c, other);
    LeadsToEnd(up, root, chains, c);
    Head(up, root, chains, c);
  }

  /** Object can only be the last class of a chain. */
  lemma {:induction false} RootLast(up: Links, root: RClass, chains: Chains, d: RClass)
    requires Chained(up, root, chains) && d in chains
    ensures forall i :: 0 <= i < |chains[d]| && chains[d][i] == root ==> i == |chains[d]| - 1
    decreases |chains[d]|
  {
    assert ChainOf(up, root, chains, d);
    if d != root && up[d] != null {
      RootLast(up, root, chains, up[d]);
      forall i | 0 <= i < |chains[d]| && chains[d][i] == root ensures i == |chains[d]| - 1 {
        assert chains[d][i] == chains[up[d]][i - 1];
      }
    }
  }

  /** Mixing x into c leaves every failing lookup finite exactly when c is not Object. */
  lemma IncludeStops(up: Links, root: RClass, chains: Chains, c: RClass, x: RClass)
    requires Chained(up, root, chains) && c in chains && x !in chains && up[c] != null
    ensures (forall d :: d in chains ==> StopsEver(up[x := up[c]][c := x], d)) <==> c != root
  {
    var now := up[x := up[c]][c := x];
    assert ChainOf(up, root, chains, c);
    if c == root {
      forall n: nat ensures !Stops(now, root, n) { CycleFollows(now, root, x, n); }
    } else {
      IncludeChained(up, root, chains, c, x);
      forall d | d in chains ensures StopsEver(now, d) {
        ChainStops(now, root, Included(chains, c, x), d);
      }
    }
  }

  ghost function Included(chains: Chains, c: RClass, x: RClass): Chains
    requires c in chains && |chains[c]| > 0
  {
    (map d | d in chains :: InsertAfter(chains[d], c, x))[x := [x] + chains[c][1..]]
  }

  lemma IncludeChained(up: Links, root: RClass, chains: Chains, c: RClass, x: RClass)
    requires Chained(up, root, chains) && c in chains && x !in chains && up[c] != null && c != root
    ensures Chained(up[x := up[c]][c := x], root, Included(chains, c, x))
  {
    var more, tail := up[x := up[c]], [x] + chains[up[c]];
    assert ChainOf(up, root, chains, c);
    var with := chains[x := tail];
    forall d | d in with ensures ChainOf(more, root, with, d) { if d != x { assert ChainOf(up, root, chains, d); } }
    AllOnChain(up, root, chains, up[c]);
    NotBelow(up, root, chains, c);
    RelinkChained(more, root, with, c, x);
    var now := Relinked(with, c, tail);
    forall d | d in chains ensures now[d] == InsertAfter(chains[d], c, x) {
      RedirectInserts(up, root, chains, d, c, x);
    }
    assert now == Included(chains, c, x);
  }

  /** Mixing in moves the end of no chain, and the copy's chain ends as the class's. */
  lemma IncludeEnds(up: Links, root: RClass, chains: Chains, c: RClass, x: RClass, d: RClass)
    requires Chained(up, root, chains) && {c, d} <= chains.Keys && x !in chains && up[c] != null && c != root
    requires |chains[c]| > 0
    ensures
      var now := Included(chains, c, x);
      && |chains[d]| > 0 && |now[d]| > 0 && Last(now[d]) == Last(chains[d])
      && |now[x]| > 0 && Last(now[x]) == Last(chains[c])
  {
    NotLast(up, root, chains, c, d);
    InsertLast(chains[d], c, x);
    assert ChainOf(up, root, chains, c) && ChainOf(up, root, chains, up[c]);
  }

  lemma AllOnChain(up: Links, root: RClass, chains: Chains, d: RClass)
    requires Chained(up, root, chains) && d in chains
    ensures forall e :: e in chains[d] ==> e in chains
  {
    forall i | 0 <= i < |chains[d]| ensures chains[d][i] in chains { SuffixIsChain(up, root, chains, d, i); }
  }

  lemma NotBelow(up: Links, root: RClass, chains: Chains, c: RClass)
    requires Chained(up, root, chains) && c in chains && c != root && up[c] != null
    ensures c !in chains[up[c]]
  {
    assert ChainOf(up, root, chains, c);
    if c in chains[up[c]] {
      var i :| 0 <= i < |chains[up[c]]| && chains[up[c]][i] == c;
      ChainNoDup(up, root, chains, c, 0, i + 1);
    }
  }

  /** A class may be given a superclass exactly when it is not on that class's chain. */
  lemma InheritIsFinite(up: Links, root: RClass, chains: Chains, c: RClass, sc: RClass, now: Links)
    requires Chained(up, root, chains) && c in chains && sc in chains && c != root && now == up[c := sc]
    ensures (exists after: Chains :: Chained(now, root, after)) <==> c !in chains[sc]
  {
    if c !in chains[sc] {
      RelinkChained(up, root, chains, c, sc);
    } else if after: Chains :| Chained(now, root, after) {
      LongWay(up, root, chains, c, sc, after, sc);
      assert false;
    }
  }

  /** With c below itself, a chain would be longer than itself. */
  lemma {:induction false} LongWay(up: Links, root: RClass, chains: Chains, c: RClass, sc: RClass, after: Chains,
                                   d: RClass)
    requires Chained(up, root, chains) && c in chains && sc in chains && c != root && Chained(up[c := sc], root, after)
    requires d in chains && c in chains[d]
    ensures |after[d]| >= |after[c]| > |after[sc]|
    decreases |chains[d]|
  {
    assert ChainOf(up, root, chains, d) && ChainOf(up[c := sc], root, after, d) && ChainOf(up[c := sc], root, after, c);
    if d != c && up[d] != null { LongWay(up, root, chains, c, sc, after, up[d]); }
  }

  // ------------------------------------------------------------------ objects

  class Environment {
    var entries: map<string, MethodObject>

    constructor ()
      ensures entries == map[]
    {
      entries := map[];
    }
  }

  datatype ClassError = NotAModule | NilDereference | ModuleInheritance

  /** alreadyInherit of a class with the given chain; None where it runs into a nil superclass. */
  function Inherited(chain: seq<RClass>, root: RClass, constant: RClass): Option<bool>
    requires |chain| > 0
  {
    if chain == [root] then Some(constant == root)
    else if constant in chain[1..] then Some(true)
    else if chain[|chain| - 1] == root then Some(false)
    else None
  }

  lemma OwnLink(up: Links, root: RClass, chains: Chains, c: RClass)
    requires Chained(up, root, chains) && c in chains
    ensures up.Keys == chains.Keys && |chains[c]| > 0
    ensures up[c] != null ==> up[c] in chains
    ensures chains[root] == [root] && EndsAt(chains, root, root)
  {
    assert ChainOf(up, root, chains, c) && ChainOf(up, root, chains, root);
  }

  lemma SameKeys(chains: Chains, c: RClass, x: RClass, tail: seq<RClass>)
    requires c in chains && |chains[c]| > 0
    ensures Included(chains, c, x).Keys == chains.Keys + {x}
    ensures Relinked(chains, c, tail).Keys == chains.Keys
  {
  }

  /** Relinking a class without descendants changes its own chain only. */
  lemma RelinkLeaf(chains: Chains, c: RClass, a: seq<RClass>, s: seq<RClass>)
    requires c in chains && chains[c] == [c] + a && forall d :: d in chains && d != c ==> c !in chains[d]
    ensures Relinked(chains, c, s) == chains[c := [c] + s]
  {
  }

  lemma RelinkMeta(up: Links, root: RClass, chains: Chains, c: RClass, meta: RClass, tail: seq<RClass>)
    requires Chained(up, root, chains) && c !in chains && meta !in chains && c != meta && meta != root
    ensures Relinked(chains[c := [c] + [root]][meta := [meta] + [root]], meta, tail)
      == chains[c := [c] + [root]][meta := [meta] + tail]
  {
    hide Relinked;
    forall d | d in chains ensures meta !in chains[d] { AllOnChain(up, root, chains, d); }
    RelinkLeaf(chains[c := [c] + [root]][meta := [meta] + [root]], meta, [root], tail);
  }

  lemma RelinkNewClass(up: Links, root: RClass, chains: Chains, c: RClass, meta: RClass,
                       a: seq<RClass>, b: seq<RClass>, s: seq<RClass>, t: seq<RClass>)
    requires Chained(up, root, chains) && c !in chains && meta !in chains && c != meta
    requires c !in b && meta !in s
    ensures Relinked(Relinked(chains[c := [c] + a][meta := [meta] + b], c, s), meta, t)
      == chains[c := [c] + s][meta := [meta] + t]
  {
    hide Relinked;
    forall d | d in chains ensures c !in chains[d] && meta !in chains[d] { AllOnChain(up, root, chains, d); }
    RelinkLeaf(chains[c := [c] + a][meta := [meta] + b], c, a, s);
    assert chains[c := [c] + a][meta := [meta] + b][c := [c] + s] == chains[c := [c] + s][meta := [meta] + b];
    RelinkLeaf(chains[c := [c] + s][meta := [meta] + b], meta, b, t);
    assert chains[c := [c] + s][meta := [meta] + b][meta := [meta] + t] == chains[c := [c] + s][meta := [meta] + t];
  }

  ghost function ChainFrom(chains: Chains, c: RClass?): seq<RClass> {
    if c != null && c in chains then chains[c] else []
  }

  lemma UnlinkChained(up: Links, root: RClass, chains: Chains, c: RClass)
    requires Chained(up, root, chains) && c in chains && c != root
    ensures Chained(up[c := null], root, Relinked(chains, c, []))
  {
    var after := Relinked(chains, c, []);
    assert up[c := null].Keys == up.Keys == after.Keys;
    forall d | d in after ensures ChainOf(up[c := null], root, after, d) {
      assert ChainOf(up, root, chains, d);
      if d != c && d != root && up[d] != null { assert chains[d][1..] == chains[up[d]]; }
    }
  }

  /** The classes without a superclass. */
  ghost function BareOf(up: Links): set<RClass> {
    set c | c in up && up[c] == null
  }

  /** No class has m as its superclass. */
  ghost predicate NoneBelow(up: Links, m: RClass) {
    forall c :: c in up ==> up[c] != m
  }

  /** Only Object has Object's name. */
  ghost predicate OnlyObject(cs: set<RClass>, root: RClass) {
    forall c :: c in cs ==> (c.name == OBJECT <==> c == root)
  }

  /** Metaclasses are classes of the VM; Object and the modules are none. */
  ghost predicate MetasOk(metas: Links, root: RClass) {
    forall c :: c in metas && metas[c] != null ==> metas[c] in metas && metas[c] != root && !metas[c].isModule
  }

  lemma BareBelow(up: Links, sc: RClass, sm: RClass?, c: RClass, meta: RClass)
    requires c !in up && meta !in up && c != meta
    ensures BareOf(up[c := sc][meta := sm]) == BareOf(up) + (if sm == null then {meta} else {})
  {
  }

  /** A new class c below sc, with a metaclass below sm, or below none. */
  lemma DefinedBelow(up: Links, root: RClass, was: Chains, sc: RClass, sm: RClass?, c: RClass, meta: RClass)
    requires Chained(up, root, was) && sc in was && !sc.isModule && (sm != null ==> sm in was && !sm.isModule)
    requires c !in was && meta !in was && c != meta
    ensures c !in was[sc] && meta !in was[sc] && c !in ChainFrom(was, sm) && meta !in ChainFrom(was, sm)
    ensures BareOf(up[c := sc][meta := sm]) == BareOf(up) + (if sm == null then {meta} else {})
    ensures forall m :: m in was && m.isModule && NoneBelow(up, m) ==> NoneBelow(up[c := sc][meta := sm], m)
    ensures
      var now := was[c := [c] + was[sc]][meta := [meta] + ChainFrom(was, sm)];
      && (forall d :: d in was ==> EndsAt(now, d, root) == EndsAt(was, d, root))
      && (EndsAt(now, c, root) <==> EndsAt(was, sc, root))
      && (EndsAt(now, meta, root) <==> sm != null && EndsAt(was, sm, root))
  {
    hide ChainOf;
    AllOnChain(up, root, was, sc);
    OwnLink(up, root, was, sc);
    LastJoined(c, was[sc]);
    BareBelow(up, sc, sm, c, meta);
    forall m | m in was && m.isModule && NoneBelow(up, m) ensures NoneBelow(up[c := sc][meta := sm], m) {}
    hide NoneBelow, BareOf;
    if sm != null {
      AllOnChain(up, root, was, sm);
      OwnLink(up, root, was, sm);
      LastJoined(meta, was[sm]);
    }
  }

  lemma MetaOf(metas: Links, root: RClass, c: RClass)
    requires MetasOk(metas, root) && c in metas && metas[c] != null
    ensures metas[c] in metas && metas[c] != root && !metas[c].isModule
  {
  }

  lemma ChainFromIs(chains: Chains, c: RClass)
    requires c in chains
    ensures ChainFrom(chains, c) == chains[c]
  {
  }

  lemma SameChainFrom(was: Chains, now: Chains, c: RClass?)
    requires c == null || (c in was && c in now && was[c] == now[c])
    ensures ChainFrom(was, c) == ChainFrom(now, c)
  {
  }

  /** The superclass of a class is on its chain. */
  lemma {:induction false} NotAbove(up: Links, root: RClass, chains: Chains, c: RClass, m: RClass)
    requires Chained(up, root, chains) && c in chains && NoneBelow(up, m)
    ensures |chains[c]| > 0 && m !in chains[c][1..]
    decreases |chains[c]|
  {
    assert ChainOf(up, root, chains, c);
    if c != root && up[c] != null {
      NotAbove(up, root, chains, up[c], m);
      assert ChainOf(up, root, chains, up[c]);
      assert chains[c][1..] == [up[c]] + chains[up[c]][1..];
    }
  }

  lemma NewIsChained(up: Links, root: RClass, was: Chains, c: RClass)
    requires Chained(up, root, was) && c !in was
    ensures Chained(up[c := root], root, was[c := [c] + [root]])
  {
    assert ChainOf(up, root, was, root);
    var links, now := up[c := root], was[c := [c] + [root]];
    forall d | d in now ensures ChainOf(links, root, now, d) {
      if d in was { assert ChainOf(up, root, was, d); }
    }
  }

  lemma NewIsNotAbove(up: Links, root: RClass, was: Chains, m: RClass, meta: RClass, sc: RClass)
    requires Chained(up, root, was) && m !in was && sc in was
    ensures NoneBelow(up[m := root][meta := sc], m)
  {
    forall c | c in up ensures up[c] != m { OwnLink(up, root, was, c); }
  }

  lemma LastUpdate(m: Links, a: RClass, x: RClass?, y: RClass?)
    ensures m[a := x][a := y] == m[a := y]
  {
  }

  lemma TwoUpdates(m: Links, a: RClass, b: RClass, x: RClass?, y: RClass?, x': RClass?, y': RClass?)
    requires a != b
    ensures m[a := x][b := y][a := x'][b := y'] == m[a := x'][b := y']
  {
  }

  lemma LastJoined(c: RClass, s: seq<RClass>)
    requires |s| > 0
    ensures Last([c] + s) == Last(s)
  {
  }

  class RClass {
    const name: string
    const isModule: bool
    const methods: Environment     // a Go map: a module's copies share it
    var superClass: RClass?
    var pseudoSuperClass: RClass?
    var metaClass: RClass?

    constructor (name: string, isModule: bool, superClass: RClass?, metaClass: RClass?)
      ensures this.name == name && this.isModule == isModule && fresh(methods) && methods.entries == map[]
      ensures this.superClass == this.pseudoSuperClass == superClass && this.metaClass == metaClass
    {
      this.name, this.isModule := name, isModule;
      this.methods := new Environment();
      this.superClass, this.pseudoSuperClass, this.metaClass := superClass, superClass, metaClass;
    }

    /** A copy of the struct with another superclass: the method table is the same one. */
    constructor Copy(m: RClass, superClass: RClass?)
      ensures name == m.name && isModule == m.isModule && methods == m.methods
      ensures this.superClass == superClass && pseudoSuperClass == m.pseudoSuperClass && metaClass == m.metaClass
    {
      name, isModule, methods := m.name, m.isModule, m.methods;
      this.superClass, pseudoSuperClass, metaClass := superClass, m.pseudoSuperClass, m.metaClass;
    }

    /** lookupMethod: the first definition along the superclass chain. */
    method LookupMethod(name: string, ghost h: Hierarchy) returns (r: Option<MethodObject>)
      requires h.Valid() && this in h.chains
      ensures r == h.Lookup(this, name)
      decreases |h.chains[this]|
    {
      assert ChainOf(h.Up(), h.objectClass, h.chains, this);
      assert h.Defined()[this] == methods.entries && h.chains[this][0] == this;
      if name in methods.entries { return Some(methods.entries[name]); }
      if superClass != null && superClass != this {
        assert h.chains[this][1..] == h.chains[superClass];
        r := superClass.LookupMethod(name, h);
      } else {
        assert h.chains[this][1..] == [] && First([], h.Defined(), name) == None;
        r := None;
      }
    }

    method SetSuperClass(sc: RClass?, ghost h: Hierarchy)
      requires h.Valid() && this in h.chains && this != h.objectClass
      requires sc != null ==> sc in h.chains && this !in h.chains[sc]
      modifies this`superClass, this`pseudoSuperClass, h
      ensures h.Valid() && pseudoSuperClass == sc
      ensures h.Up() == old(h.Up())[this := sc] && h.Metas() == old(h.Metas())
      ensures h.chains == Relinked(old(h.chains), this, ChainFrom(old(h.chains), sc))
      ensures forall d :: d in old(h.chains) ==>
                && d in h.chains
                && (h.Rooted(d) <==>
                    if this in old(h.chains[d]) then sc != null && old(h.Rooted(sc)) else old(h.Rooted(d)))
    {
      hide Chained, Relinked, ChainOf, Redirect, OnlyObject, MetasOk, ChainFrom, EndsAt;
      ghost var was, up, metas := h.chains, h.Up(), h.Metas();
      OwnLink(up, h.objectClass, was, this);
      SameKeys(was, this, this, ChainFrom(was, sc));
      Relinks(up, h.objectClass, was, this, sc);
      superClass := sc;
      pseudoSuperClass := sc;
      h.chains := Relinked(was, this, ChainFrom(was, sc));
      forall d | d in was
        ensures EndsAt(h.chains, d, h.objectClass) <==>
          if this in was[d] then sc != null && EndsAt(was, sc, h.objectClass) else EndsAt(was, d, h.objectClass)
      {
        RelinkEnds(up, h.objectClass, was, this, sc, d);
      }
      RelinkedLinks(h, up, this);
      SameMetas(h, metas);
    }

    /** inherits: sc becomes the superclass, and its metaclass the metaclass's. */
    method Inherits(sc: RClass, ghost h: Hierarchy)
      requires h.Valid() && this in h.chains && sc in h.chains && metaClass != null
      requires this != h.objectClass && metaClass != this && this !in h.chains[sc]
      requires sc.metaClass != null ==> this !in h.chains[sc.metaClass] && metaClass !in h.chains[sc.metaClass]
      modifies this`superClass, this`pseudoSuperClass, metaClass`superClass, metaClass`pseudoSuperClass, h
      ensures h.Valid() && pseudoSuperClass == sc && metaClass.pseudoSuperClass == sc.metaClass
      ensures h.Up() == old(h.Up())[this := sc][metaClass := sc.metaClass] && h.Metas() == old(h.Metas())
      ensures h.chains
        == Relinked(Relinked(old(h.chains), this, old(h.chains)[sc]), metaClass, ChainFrom(old(h.chains), sc.metaClass))
    {
      hide Chained, ChainOf, OnlyObject;
      assert metaClass == h.Metas()[this] && sc.metaClass == h.Metas()[sc];
      SetSuperClass(sc, h);
      metaClass.SetSuperClass(sc.metaClass, h);
    }

    /** Puts a copy of the module between the class and its superclass. */
    method MixIn(m: RClass, ghost h: Hierarchy) returns (ghost x: RClass)
      requires h.Valid() && this in h.chains && m in h.chains && superClass != null && this != h.objectClass
      requires m != h.objectClass
      modifies this`superClass, h
      ensures h.Valid() && fresh(x) && x !in old(h.chains)
      ensures x.methods == m.methods && x.name == m.name && x.isModule == m.isModule
      ensures h.Up() == MixedIn(old(h.Up()), this, x) && h.Metas() == old(h.Metas())[x := m.metaClass]
      ensures |old(h.chains)[this]| > 0 && h.chains == Included(old(h.chains), this, x)
    {
      hide Chained, Included, ChainOf, First, Inherited, OnlyObject, MetasOk;
      ghost var was, up, metas := h.chains, h.Up(), h.Metas();
      OwnLink(up, h.objectClass, was, this);
      OwnName(was.Keys, h.objectClass, m);
      assert metas[m] == m.metaClass;
      var copy := new RClass.Copy(m, superClass);
      IncludeChained(up, h.objectClass, was, this, copy);
      superClass := copy;
      x := copy;
      SameKeys(was, this, x, []);
      h.chains := Included(was, this, copy);
      MixedInLinks(h, up, this, copy);
      MoreMetas(h, metas, h.objectClass, copy);
      OneMore(was.Keys, h.objectClass, copy);
      assert h.chains.Keys == was.Keys + {copy};
    }

    /** The include builtin. */
    method Include(m: RClass, ghost h: Hierarchy) returns (r: Result<RClass, ClassError>, ghost x: RClass)
      requires h.Valid() && this in h.chains && m in h.chains && this != h.objectClass
      modifies this`superClass, h
      ensures h.Valid()
      ensures !m.isModule ==> r == Err(NotAModule)
      ensures m.isModule ==>
                r == (match Inherited(old(h.chains[this]), h.objectClass, m)
                      case None => Err(NilDereference)
                      case Some(_) => Ok(this))
      ensures !m.isModule || Inherited(old(h.chains[this]), h.objectClass, m) != Some(false) ==>
                h.chains == old(h.chains) && h.Up() == old(h.Up())
      ensures m.isModule && Inherited(old(h.chains[this]), h.objectClass, m) == Some(false) ==>
                && fresh(x) && x.methods == m.methods && x !in old(h.chains) && old(superClass) != null
                && h.chains == Included(old(h.chains), this, x) && h.Up() == MixedIn(old(h.Up()), this, x)
      ensures h.KeepsEnds(old(h.chains), old(h.Up()))
    {
      hide Chained, Included, MixedIn, Hierarchy.KeepsEnds;
      x := this;
      h.NothingMoves();
      if !m.isModule { return Err(NotAModule), x; }
      var already := AlreadyInherit(m, h);
      if already.None? { return Err(NilDereference), x; }
      if already.value { return Ok(this), x; }
      OwnLink(h.Up(), h.objectClass, h.chains, this);
      NotBare(h.Up(), h.objectClass, h.chains, this, m);
      ghost var was, up := h.chains, h.Up();
      x := MixIn(m, h);
      h.MixingKeepsEnds(was, up, this, x);
      r := Ok(this);
    }

    /** The extend builtin: include, into the metaclass. */
    method Extend(m: RClass, ghost h: Hierarchy) returns (r: Result<RClass, ClassError>, ghost x: RClass)
      requires h.Valid() && this in h.chains && m in h.chains && metaClass != null
      modifies metaClass`superClass, h
      ensures h.Valid()
      ensures r == (if !m.isModule then Err(NotAModule)
                    else match Inherited(old(h.chains[metaClass]), h.objectClass, m)
                      case None => Err(NilDereference)
                      case Some(_) => Ok(old(metaClass)))
      ensures !m.isModule || Inherited(old(h.chains[metaClass]), h.objectClass, m) != Some(false) ==>
                h.chains == old(h.chains) && h.Up() == old(h.Up())
      ensures m.isModule && Inherited(old(h.chains[metaClass]), h.objectClass, m) == Some(false) ==>
                && fresh(x) && x.methods == m.methods && x !in old(h.chains) && old(metaClass.superClass) != null
                && h.chains == Included(old(h.chains), old(metaClass), x)
                && h.Up() == MixedIn(old(h.Up()), old(metaClass), x)
      ensures h.KeepsEnds(old(h.chains), old(h.Up()))
    {
      hide Chained, Included, MixedIn, Hierarchy.KeepsEnds;
      x := this;
      var meta: RClass := metaClass;
      assert meta == h.Metas()[this];
      if m.isModule {
        r, x := meta.Include(m, h);
      } else {
        h.NothingMoves();
        r := Err(NotAModule);
      }
    }

    /** DefMethod: one entry of the method table, which a module shares with its copies. */
    method DefineMethod(name: string, f: MethodObject, ghost h: Hierarchy)
      requires h.Valid() && this in h.chains
      modifies methods
      ensures methods.entries == old(methods.entries)[name := f]
      ensures forall d, i {:trigger h.chains[d][i]} ::
                (&& d in h.chains && 0 <= i < |h.chains[d]| && h.chains[d][i].methods == methods
                 && forall j :: 0 <= j < i ==> name !in old(h.chains[d][j].methods.entries))
                ==> h.Lookup(d, name) == Some(f)
      ensures forall d, n ::
                d in h.chains
                  && (n != name || forall i :: 0 <= i < |h.chains[d]| ==> h.chains[d][i].methods != methods) ==>
                  h.Lookup(d, n) == old(h.Lookup(d, n))
    {
      hide Chained, First;
      ghost var was := h.Defined();
      methods.entries := methods.entries[name := f];
      forall d, i | d in h.chains && 0 <= i < |h.chains[d]| && h.chains[d][i].methods == methods
                    && (forall j :: 0 <= j < i ==> name !in old(h.chains[d][j].methods.entries))
        ensures h.Lookup(d, name) == Some(f)
      {
        AllOnChain(h.Up(), h.objectClass, h.chains, d);
        FirstAt(h.chains[d], h.Defined(), name, i, f);
      }
      forall d, n | d in h.chains
        && (n != name || forall i :: 0 <= i < |h.chains[d]| ==> h.chains[d][i].methods != methods)
        ensures h.Lookup(d, n) == old(h.Lookup(d, n))
      {
        AllOnChain(h.Up(), h.objectClass, h.chains, d);
        FirstAgrees(h.chains[d], was, h.Defined(), n);
      }
    }

    method AlreadyInherit(constant: RClass, ghost h: Hierarchy) returns (r: Option<bool>)
      requires h.Valid() && this in h.chains
      ensures r == Inherited(h.chains[this], h.objectClass, constant)
      decreases |h.chains[this]|
    {
      assert ChainOf(h.Up(), h.objectClass, h.chains, this);
      if superClass == constant { return Some(true); }
      if superClass == null { return None; }
      assert ChainOf(h.Up(), h.objectClass, h.chains, superClass);
      if superClass.name == OBJECT { return Some(false); }
      r := superClass.AlreadyInherit(constant, h);
    }

    /** ancestors: the superclass chain; the loop runs into nil if that does not end at Object. */
    method Ancestors(ghost h: Hierarchy) returns (r: Result<seq<RClass>, ClassError>)
      requires h.Valid() && this in h.chains
      ensures r == if h.Rooted(this) then Ok(h.chains[this]) else Err(NilDereference)
    {
      hide First, Redirect, InsertAfter, Chained, ChainOf, EndsAt, MetasOk, OnlyObject;
      var classes := [this];
      var k: RClass := this;
      h.Next(this);
      while k.name != OBJECT
        invariant k in h.chains && |h.chains[k]| > 0 && h.Rooted(k) == h.Rooted(this)
        invariant classes + h.chains[k][1..] == h.chains[this]
        decreases |h.chains[k]|
      {
        h.Next(k);
        if k.superClass == null { return Err(NilDereference); }
        h.Next(k.superClass);
        assert h.chains[k][1..] == [k.superClass] + h.chains[k.superClass][1..];
        k := k.superClass;
        classes := classes + [k];
      }
      h.Next(k);
      assert h.chains[k][1..] == [] && classes + [] == classes;
      r := Ok(classes);
    }

    /** isA: the class, or one of its name, is on the chain. */
    method IsA(super: RClass, ghost h: Hierarchy) returns (r: bool)
      requires h.Valid() && this in h.chains
      ensures r <==> exists c :: c in h.chains[this] && (c == super || c.name == super.name)
    {
      var cl: RClass? := this;
      while true
        invariant cl != null ==> cl in h.chains
        invariant (exists c :: c in h.chains[this] && (c == super || c.name == super.name))
             <==> cl != null && exists c :: c in h.chains[cl] && (c == super || c.name == super.name)
        decreases if cl == null then 0 else |h.chains[cl]|
      {
        if cl == null { return false; }
        assert ChainOf(h.Up(), h.objectClass, h.chains, cl);
        if cl == super || cl.name == super.name { return true; }
        if cl.name == OBJECT { return false; }
        cl := cl.superClass;
      }
    }
  }

  predicate Distinct(o: RClass, m: RClass, c: RClass, om: RClass, mm: RClass, cm: RClass) {
    && o != m && o != c && o != om && o != mm && o != cm && m != c && m != om && m != mm && m != cm
    && c != om && c != mm && c != cm && om != mm && om != cm && mm != cm
  }

  /** The chains a VM starts with; the metaclass of Class alone does not end at Object. */
  ghost function BootChains(object_: RClass, module_: RClass, class_: RClass, objectMeta: RClass, moduleMeta: RClass,
                            classMeta: RClass): Chains
  {
    map[object_ := [object_], module_ := [module_, object_], class_ := [class_, module_, object_],
        objectMeta := [objectMeta, class_, module_, object_],
        moduleMeta := [moduleMeta, objectMeta, class_, module_, object_], classMeta := [classMeta]]
  }

  ghost function BootLinks(object_: RClass, module_: RClass, class_: RClass, objectMeta: RClass, moduleMeta: RClass,
                           classMeta: RClass): Links
  {
    map[object_ := object_, module_ := object_, class_ := module_, objectMeta := class_, moduleMeta := objectMeta,
        classMeta := null]
  }

  lemma BootIsChained(o: RClass, m: RClass, c: RClass, om: RClass, mm: RClass, cm: RClass)
    requires Distinct(o, m, c, om, mm, cm)
    ensures Chained(BootLinks(o, m, c, om, mm, cm), o, BootChains(o, m, c, om, mm, cm))
    ensures BootChains(o, m, c, om, mm, cm).Keys == {o, m, c, om, mm, cm}
  {
    var up, chains := BootLinks(o, m, c, om, mm, cm), BootChains(o, m, c, om, mm, cm);
    assert ChainOf(up, o, chains, o) && ChainOf(up, o, chains, m) && ChainOf(up, o, chains, c);
    assert ChainOf(up, o, chains, om) && ChainOf(up, o, chains, mm) && ChainOf(up, o, chains, cm);
    hide ChainOf;
  }

  lemma CoreLinks(o: RClass, m: RClass, c: RClass, om: RClass, mm: RClass, cm: RClass, up: Links)
    requires up.Keys == {o, m, c, om, mm, cm}
    requires up[o] == o && up[m] == o && up[c] == m && up[om] == c && up[mm] == om && up[cm] == null
    requires Distinct(o, m, c, om, mm, cm)
    ensures up == BootLinks(o, m, c, om, mm, cm)
  {
  }

  lemma RelinkEnds(up: Links, root: RClass, chains: Chains, c: RClass, sc: RClass?, d: RClass)
    requires Chained(up, root, chains) && {c, d} <= chains.Keys && c != root && (sc != null ==> sc in chains)
    ensures EndsAt(Relinked(chains, c, ChainFrom(chains, sc)), d, root)
       <==> if c in chains[d] then sc != null && EndsAt(chains, sc, root) else EndsAt(chains, d, root)
  {
    OwnLink(up, root, chains, d);
    if sc != null { OwnLink(up, root, chains, sc); }
    RedirectLast(chains[d], c, ChainFrom(chains, sc));
  }

  lemma RelinkedLinks(h: Hierarchy, up: Links, c: RClass)
    requires h.chains.Keys == up.Keys && c in up
    requires forall d :: d in up && d != c ==> d.superClass == up[d]
    ensures h.Up() == up[c := c.superClass]
  {
  }

  lemma NewLinks(h: Hierarchy, up: Links, c: RClass)
    requires h.chains.Keys == up.Keys + {c} && c !in up && forall d :: d in up ==> d.superClass == up[d]
    ensures h.Up() == up[c := c.superClass]
  {
  }

  lemma SameMetas(h: Hierarchy, metas: Links)
    requires h.chains.Keys == metas.Keys && forall d :: d in metas ==> d.metaClass == metas[d]
    ensures h.Metas() == metas
  {
  }

  lemma MoreMetas(h: Hierarchy, metas: Links, root: RClass, x: RClass)
    requires h.chains.Keys == metas.Keys + {x} && x !in metas && forall d :: d in metas ==> d.metaClass == metas[d]
    requires MetasOk(metas, root) && (x.metaClass == null || exists m :: m in metas && metas[m] == x.metaClass)
    ensures h.Metas() == metas[x := x.metaClass] && MetasOk(h.Metas(), root)
  {
  }

  lemma OwnName(cs: set<RClass>, root: RClass, m: RClass)
    requires OnlyObject(cs, root) && m in cs && m != root
    ensures m.name != OBJECT
  {
  }

  lemma OneMore(cs: set<RClass>, root: RClass, x: RClass)
    requires OnlyObject(cs, root) && root in cs && x !in cs && x.name != OBJECT
    ensures OnlyObject(cs + {x}, root)
  {
  }

  /** The superclass pointers with x between c and its superclass. */
  ghost function MixedIn(up: Links, c: RClass, x: RClass): Links
    requires c in up
  {
    var more: Links := up[x := up[c]];
    more[c := x]
  }

  lemma SameEnd(up: Links, root: RClass, was: Chains, c: RClass, x: RClass, d: RClass)
    requires Chained(up, root, was) && {c, d} <= was.Keys && x !in was && c != root && up[c] != null && |was[c]| > 0
    ensures EndsAt(Included(was, c, x), d, root) == EndsAt(was, d, root)
  {
    IncludeEnds(up, root, was, c, x, d);
  }

  lemma MixedInBare(up: Links, c: RClass, x: RClass)
    requires c in up && x !in up && up[c] != null
    ensures BareOf(MixedIn(up, c, x)) == BareOf(up)
  {
  }

  lemma StillNoneBelow(up: Links, c: RClass, x: RClass, m: RClass)
    requires c in up && x !in up && m in up && NoneBelow(up, m)
    ensures NoneBelow(MixedIn(up, c, x), m)
  {
  }

  lemma MixedInLinks(h: Hierarchy, up: Links, c: RClass, x: RClass)
    requires h.chains.Keys == up.Keys + {x} && c in up && x !in up
    requires forall d :: d in up && d != c ==> d.superClass == up[d]
    requires c.superClass == x && x.superClass == up[c]
    ensures h.Up() == MixedIn(up, c, x)
  {
  }

  /** Relinking to a class, or to none. */
  lemma Relinks(up: Links, root: RClass, chains: Chains, c: RClass, sc: RClass?)
    requires Chained(up, root, chains) && c in chains && c != root && (sc != null ==> sc in chains && c !in chains[sc])
    ensures Chained(up[c := sc], root, Relinked(chains, c, ChainFrom(chains, sc)))
  {
    if sc == null { UnlinkChained(up, root, chains, c); } else { RelinkChained(up, root, chains, c, sc); }
  }

  /** A class alreadyInherit answers for has a superclass. */
  lemma NotBare(up: Links, root: RClass, chains: Chains, c: RClass, m: RClass)
    requires Chained(up, root, chains) && c in chains && c != root && |chains[c]| > 0
    requires Inherited(chains[c], root, m).Some?
    ensures up[c] != null
  {
    assert ChainOf(up, root, chains, c);
  }

  /** Whatever has been added to a module since it was included is visible: at any
      time, a class with a copy of m on its chain finds m's methods, unless a class
      before the copy defines the name. */
  lemma MixedInVisible(h: Hierarchy, d: RClass, i: nat, m: RClass, name: string)
    requires h.Valid() && d in h.chains && i < |h.chains[d]| && h.chains[d][i].methods == m.methods
    requires name in m.methods.entries
    requires forall j :: 0 <= j < i ==> name !in h.chains[d][j].methods.entries
    ensures h.Lookup(d, name) == Some(m.methods.entries[name])
  {
    AllOnChain(h.Up(), h.objectClass, h.chains, d);
    FirstAt(h.chains[d], h.Defined(), name, i, m.methods.entries[name]);
  }

  predicate NoModule(cs: set<RClass>) {
    forall c :: c in cs ==> !c.isModule
  }

  /** What the first six classes are. */
  ghost predicate Core(o: RClass, m: RClass, c: RClass, om: RClass, mm: RClass, cm: RClass)
    reads o, m, c, om, mm, cm
  {
    && Distinct(o, m, c, om, mm, cm)
    && o.superClass == o && m.superClass == o && c.superClass == m && om.superClass == c && mm.superClass == om
    && cm.superClass == null
    && o.metaClass == om && m.metaClass == mm && c.metaClass == cm && om.metaClass == null && mm.metaClass == null
    && cm.metaClass == null
    && NoModule({o, m, c, om, mm, cm}) && OnlyObject({o, m, c, om, mm, cm}, o)
  }

  lemma Booted(h: Hierarchy, o: RClass, m: RClass, c: RClass, om: RClass, mm: RClass, cm: RClass)
    requires Core(o, m, c, om, mm, cm) && h.chains == BootChains(o, m, c, om, mm, cm)
    requires h.objectClass == o && h.moduleClass == m && h.classClass == c
    ensures h.Valid() && h.AtStart() && h.chains.Keys == {o, m, c, om, mm, cm}
  {
    hide Chained, BootChains, Distinct, EndsAt, OnlyObject;
    BootIsChained(o, m, c, om, mm, cm);
    CoreLinks(o, m, c, om, mm, cm, h.Up());
    BootBare(o, m, c, om, mm, cm);
    hide BootLinks, BareOf;
    forall d | d in h.chains ensures h.Rooted(d) <==> d != cm { BootEnd(o, m, c, om, mm, cm, d); }
  }

  lemma BootBare(o: RClass, m: RClass, c: RClass, om: RClass, mm: RClass, cm: RClass)
    requires Distinct(o, m, c, om, mm, cm)
    ensures BareOf(BootLinks(o, m, c, om, mm, cm)) == {cm}
  {
  }

  lemma BootEnd(o: RClass, m: RClass, c: RClass, om: RClass, mm: RClass, cm: RClass, d: RClass)
    requires Distinct(o, m, c, om, mm, cm) && d in BootChains(o, m, c, om, mm, cm)
    ensures EndsAt(BootChains(o, m, c, om, mm, cm), d, o) <==> d != cm
  {
  }

  /** initClassClass, initModuleClass and initObjectClass. */
  method CoreClasses() returns (o: RClass, m: RClass, c: RClass, om: RClass, mm: RClass, cm: RClass)
    ensures fresh({o, m, c, om, mm, cm})
    ensures Core(o, m, c, om, mm, cm)
    ensures o.name == "Object" && m.name == "Module" && c.name == "Class"
    ensures om.name == "#<Class:Object>" && mm.name == "#<Class:Module>" && cm.name == "#<Class:Class>"
  {
    cm := new RClass("#<Class:Class>", false, null, null);
    c := new RClass("Class", false, null, cm);
    mm := new RClass("#<Class:Module>", false, null, null);
    m := new RClass("Module", false, null, mm);
    c.superClass, c.pseudoSuperClass := m, m;
    om := new RClass("#<Class:Object>", false, c, null);
    om.pseudoSuperClass := null;
    o := new RClass(OBJECT, false, null, om);
    o.superClass, o.pseudoSuperClass := o, o;
    m.superClass, m.pseudoSuperClass := o, o;
    mm.superClass, mm.pseudoSuperClass := om, om;
  }

  /** The classes of a VM.  chains is what the theorems are about: for every class
      its superclass chain, kept beside the pointers. */
  class Hierarchy {
    const objectClass: RClass
    const classClass: RClass
    const moduleClass: RClass
    ghost var chains: Chains

    ghost function Up(): Links
      reads this, chains.Keys
    {
      map c | c in chains :: c.superClass
    }

    ghost function Metas(): Links
      reads this, chains.Keys
    {
      map c | c in chains :: c.metaClass
    }

    ghost function Defined(): Tables
      reads this, chains.Keys, set c | c in chains :: c.methods
    {
      map c | c in chains :: c.methods.entries
    }

    ghost function Lookup(c: RClass, name: string): Option<MethodObject>
      requires c in chains
      reads this, chains.Keys, set c | c in chains :: c.methods
    {
      First(chains[c], Defined(), name)
    }

    /** The class's chain ends at Object. */
    ghost predicate Rooted(c: RClass)
      requires c in chains
      reads this
    {
      EndsAt(chains, c, objectClass)
    }

    /** Six classes, none a module, whose chains all end at Object but that of Class's metaclass. */
    ghost predicate AtStart()
      reads this, chains.Keys, objectClass, moduleClass, classClass
    {
      && objectClass.metaClass != null && moduleClass.metaClass != null && classClass.metaClass != null
      && Distinct(objectClass, moduleClass, classClass, objectClass.metaClass, moduleClass.metaClass,
                  classClass.metaClass)
      && chains == BootChains(objectClass, moduleClass, classClass, objectClass.metaClass, moduleClass.metaClass,
                              classClass.metaClass)
      && BareOf(Up()) == {classClass.metaClass} && NoModule(chains.Keys)
      && AllRootedBut(classClass.metaClass)
    }

    ghost predicate AllRootedBut(cm: RClass?)
      reads this
    {
      forall c :: c in chains ==> (Rooted(c) <==> c != cm)
    }

    ghost predicate Valid()
      reads this, chains.Keys
    {
      && objectClass in chains && classClass in chains && moduleClass in chains && !objectClass.isModule
      && !moduleClass.isModule
      && Chained(Up(), objectClass, chains)
      && OnlyObject(chains.Keys, objectClass)
      && MetasOk(Metas(), objectClass)
    }

    lemma Unrooted(c: RClass, m: RClass)
      requires c in chains && |chains[c]| > 0 && !Rooted(c) && Inherited(chains[c], objectClass, m) != Some(true)
      ensures Inherited(chains[c], objectClass, m) == None
    {
    }

    /** What a class's pointer says of its chain. */
    lemma Next(k: RClass)
      requires Valid() && k in chains
      ensures k.name == OBJECT <==> k == objectClass
      ensures |chains[k]| > 0 && chains[k][0] == k
      ensures k == objectClass ==> chains[k] == [k] && Rooted(k)
      ensures k != objectClass && k.superClass == null ==> chains[k] == [k] && !Rooted(k)
      ensures k != objectClass && k.superClass != null ==>
                && k.superClass in chains && chains[k] == [k] + chains[k.superClass]
                && |chains[k.superClass]| > 0 && Rooted(k) == Rooted(k.superClass)
    {
      assert ChainOf(Up(), objectClass, chains, k);
      if k.superClass != null {
        OwnLink(Up(), objectClass, chains, k.superClass);
        LastJoined(k, chains[k.superClass]);
      }
      hide Chained, MetasOk;
    }

    /** Which chains end at Object: exactly those without a class that has no superclass.  As
        long as only the metaclass of Class has none, those without that metaclass. */
    lemma RootedExactly(d: RClass)
      requires Valid() && d in chains
      ensures Rooted(d) <==> forall c :: c in chains[d] ==> c !in BareOf(Up())
      ensures BareOf(Up()) == {classClass.metaClass} ==> (Rooted(d) <==> classClass.metaClass !in chains[d])
    {
      EndsAtRoot(Up(), objectClass, chains, d);
      AllOnChain(Up(), objectClass, chains, d);
    }

    /** A module is on no chain but its own as long as it is no class's superclass: classes have
        copies of it above them, which alreadyInherit does not take for the module. */
    lemma NeverNoticed(c: RClass, m: RClass)
      requires Valid() && c in chains && m.isModule && NoneBelow(Up(), m)
      ensures m !in chains[c][1..] && |chains[c]| > 0 && Inherited(chains[c], objectClass, m) != Some(true)
    {
      OwnLink(Up(), objectClass, chains, c);
      NotAbove(Up(), objectClass, chains, c, m);
    }

    /** No chain's end has moved, the same classes lack a superclass, and no module has become a superclass. */
    ghost predicate KeepsEnds(was: Chains, up: Links)
      reads this, chains.Keys
    {
      && was.Keys <= chains.Keys
      && (forall d :: d in was ==> EndsAt(chains, d, objectClass) == EndsAt(was, d, objectClass))
      && BareOf(Up()) == BareOf(up)
      && forall m :: m in was && m.isModule && NoneBelow(up, m) ==> NoneBelow(Up(), m)
    }

    lemma NothingMoves()
      ensures KeepsEnds(chains, Up())
    {
    }

    lemma MixingKeepsEnds(was: Chains, up: Links, c: RClass, x: RClass)
      requires Chained(up, objectClass, was) && up.Keys == was.Keys && c in was && c != objectClass && up[c] != null
      requires x !in was && |was[c]| > 0
      requires chains == Included(was, c, x) && Up() == MixedIn(up, c, x)
      ensures KeepsEnds(was, up)
    {
      hide Chained, Included, MixedIn, EndsAt, BareOf, NoneBelow;
      SameKeys(was, c, x, []);
      forall d | d in was ensures d in chains && EndsAt(chains, d, objectClass) == EndsAt(was, d, objectClass) {
        SameEnd(up, objectClass, was, c, x, d);
      }
      MixedInBare(up, c, x);
      forall m | m in was && m.isModule && NoneBelow(up, m) ensures NoneBelow(Up(), m) { StillNoneBelow(up, c, x, m); }
    }

    /** initConstants: Object, Class and Module with their metaclasses. */
    constructor ()
      ensures Valid() && fresh(chains.Keys) && AtStart()
      ensures objectClass.name == "Object" && moduleClass.name == "Module" && classClass.name == "Class"
    {
      hide *;
      var o, m, c, om, mm, cm := CoreClasses();
      objectClass, classClass, moduleClass := o, c, m;
      chains := BootChains(o, m, c, om, mm, cm);
      new;
      Booted(this, o, m, c, om, mm, cm);
    }

    method Attach(c: RClass, meta: RClass)
      requires Valid() && c in chains && meta in chains && meta != objectClass && !meta.isModule
      modifies c`metaClass
      ensures Valid() && c.metaClass == meta && Up() == old(Up()) && Metas() == old(Metas())[c := meta]
    {
      hide Chained, ChainOf, OnlyObject;
      ghost var links, metas := Up(), Metas();
      c.metaClass := meta;
      assert Up() == links;
      assert Metas() == metas[c := meta];
    }

    /** createRClass: a class below Object. */
    method CreateRClass(name: string, isModule: bool) returns (c: RClass)
      requires Valid() && name != OBJECT
      modifies this
      ensures Valid() && fresh(c) && fresh(c.methods) && c.methods.entries == map[] && c !in old(chains)
      ensures c.name == name && c.isModule == isModule && c.metaClass == null && c.pseudoSuperClass == objectClass
      ensures Up() == old(Up())[c := objectClass] && Metas() == old(Metas())[c := null]
      ensures chains == old(chains)[c := [c] + [objectClass]]
    {
      hide Chained, ChainOf, OnlyObject, MetasOk;
      ghost var was, up, metas := chains, Up(), Metas();
      c := new RClass(name, isModule, objectClass, null);
      chains := chains[c := [c] + [objectClass]];
      NewLinks(this, up, c);
      NewIsChained(up, objectClass, was, c);
      MoreMetas(this, metas, objectClass, c);
      OneMore(was.Keys, objectClass, c);
      assert chains.Keys == was.Keys + {c};
    }

    /** A class and its metaclass, both below Object. */
    method CreatePair(name: string, isModule: bool) returns (c: RClass, meta: RClass)
      requires Valid() && name != OBJECT
      modifies this
      ensures Valid() && fresh({c, meta}) && fresh(c.methods) && c.methods.entries == map[]
      ensures c !in old(chains) && meta !in old(chains) && c != meta && !meta.isModule
      ensures c.name == name && c.isModule == isModule && c.metaClass == meta && meta.name == "#<Class:" + name + ">"
      ensures Up() == old(Up())[c := objectClass][meta := objectClass]
      ensures chains == old(chains)[c := [c] + [objectClass]][meta := [meta] + [objectClass]]
    {
      hide Chained, ChainOf, OnlyObject, MetasOk;
      c := CreateRClass(name, isModule);
      meta := CreateRClass("#<Class:" + name + ">", false);
      Attach(c, meta);
    }

    /** c is a new class below sc, with the metaclass meta below sm or, if that is nil, below none.
        No other chain has changed, and no module has become a superclass. */
    ghost predicate Below(was: Chains, up: Links, c: RClass, meta: RClass, sc: RClass, sm: RClass?)
      reads this, chains.Keys
    {
      && c !in was && meta !in was && c != meta && sc in was && (sm != null ==> sm in was)
      && chains == was[c := [c] + was[sc]][meta := [meta] + ChainFrom(was, sm)]
      && Up() == up[c := sc][meta := sm]
      && BareOf(Up()) == BareOf(up) + (if sm == null then {meta} else {})
      && (forall d :: d in was ==> Rooted(d) == EndsAt(was, d, objectClass))
      && (Rooted(c) <==> EndsAt(was, sc, objectClass))
      && (Rooted(meta) <==> sm != null && EndsAt(was, sm, objectClass))
      && forall x :: x in was && x.isModule && NoneBelow(up, x) ==> NoneBelow(Up(), x)
    }

    lemma IsBelow(was: Chains, up: Links, c: RClass, meta: RClass, sc: RClass, sm: RClass?)
      requires Chained(up, objectClass, was) && sc in was && !sc.isModule && (sm != null ==> sm in was && !sm.isModule)
      requires c !in was && meta !in was && c != meta
      requires chains == was[c := [c] + was[sc]][meta := [meta] + ChainFrom(was, sm)] && Up() == up[c := sc][meta := sm]
      ensures Below(was, up, c, meta, sc, sm)
    {
      hide Chained, EndsAt, BareOf, NoneBelow, ChainFrom;
      DefinedBelow(up, objectClass, was, sc, sm, c, meta);
    }

    lemma BelowMeans(was: Chains, up: Links, c: RClass, meta: RClass, sc: RClass, sm: RClass?)
      requires Below(was, up, c, meta, sc, sm)
      ensures chains == was[c := [c] + was[sc]][meta := [meta] + ChainFrom(was, sm)] && Up() == up[c := sc][meta := sm]
    {
    }

    /** InitClass: a class below Object, with a metaclass below Object's. */
    method InitClass(name: string) returns (c: RClass)
      requires Valid() && name != OBJECT && objectClass.metaClass != null
      modifies this
      ensures Valid() && fresh(c) && c.metaClass != null && fresh(c.metaClass) && c.name == name && !c.isModule
      ensures fresh(c.methods) && c.methods.entries == map[] && c.metaClass.name == "#<Class:" + name + ">"
      ensures Below(old(chains), old(Up()), c, c.metaClass, objectClass, objectClass.metaClass)
    {
      hide Chained, ChainOf, Redirect, Relinked, OnlyObject, MetasOk, EndsAt, NoneBelow, BareOf, ChainFrom, Below;
      ghost var was, up, metas := chains, Up(), Metas();
      OwnLink(up, objectClass, was, objectClass);
      MetaOf(metas, objectClass, objectClass);
      var meta;
      c, meta := CreatePair(name, false);
      ChainFromIs(was, objectClass.metaClass);
      AllOnChain(up, objectClass, was, objectClass.metaClass);
      RelinkNewClass(up, objectClass, was, c, meta, [objectClass], [objectClass], [objectClass],
                     was[objectClass.metaClass]);
      ChainFromIs(chains, objectClass.metaClass);
      TwoUpdates(up, c, meta, objectClass, objectClass, objectClass, objectClass.metaClass);
      c.Inherits(objectClass, this);
      IsBelow(was, up, c, meta, objectClass, objectClass.metaClass);
    }

    /** InitModule: a module, which no class is below, with a metaclass below Module. */
    method InitModule(name: string) returns (m: RClass)
      requires Valid() && name != OBJECT
      modifies this
      ensures Valid() && fresh(m) && m.metaClass != null && fresh(m.metaClass) && m.name == name && m.isModule
      ensures fresh(m.methods) && m.methods.entries == map[] && NoneBelow(Up(), m)
      ensures m.metaClass.name == "#<Class:" + name + ">"
      ensures Below(old(chains), old(Up()), m, m.metaClass, objectClass, moduleClass)
    {
      hide Chained, ChainOf, Redirect, Relinked, OnlyObject, MetasOk, NoneBelow, ChainFrom, EndsAt, BareOf, Below;
      ghost var was, up := chains, Up();
      OwnLink(up, objectClass, was, objectClass);
      var meta;
      m, meta := CreatePair(name, true);
      AllOnChain(up, objectClass, was, moduleClass);
      RelinkMeta(up, objectClass, was, m, meta, was[moduleClass]);
      LastUpdate(up[m := objectClass], meta, objectClass, moduleClass);
      ChainFromIs(chains, moduleClass);
      ChainFromIs(was, moduleClass);
      meta.SetSuperClass(moduleClass, this);
      NewIsNotAbove(up, objectClass, was, m, meta, moduleClass);
      IsBelow(was, up, m, meta, objectClass, moduleClass);
    }

    /** DefClass for a name not yet known: a class below Object, or below the class named.  A module
        cannot be inherited from; the class, made and stored by then, stays below Object. */
    method DefineClass(name: string, superClass: RClass?) returns (r: Result<RClass, ClassError>, stored: RClass)
      requires Valid() && name != OBJECT && objectClass.metaClass != null
      requires superClass != null ==> superClass in chains
      modifies this
      ensures Valid()
      ensures r == if superClass != null && superClass.isModule then Err(ModuleInheritance) else Ok(stored)
      ensures fresh(stored) && stored.metaClass != null && fresh(stored.metaClass) && stored.name == name
      ensures !stored.isModule
      ensures fresh(stored.methods) && stored.methods.entries == map[]
      ensures stored.metaClass.name == "#<Class:" + name + ">"
      ensures
        var sc := if superClass == null || superClass.isModule then objectClass else superClass;
        Below(old(chains), old(Up()), stored, stored.metaClass, sc, sc.metaClass)
    {
      hide Chained, ChainOf, Redirect, Relinked, OnlyObject, MetasOk, EndsAt, NoneBelow, BareOf, ChainFrom;
      ghost var was, up, metas := chains, Up(), Metas();
      OwnLink(up, objectClass, was, objectClass);
      var c := InitClass(name);
      stored := c;
      if superClass == null { return Ok(c), c; }
      if superClass.isModule { return Err(ModuleInheritance), c; }
      ghost var meta: RClass, sm := c.metaClass, superClass.metaClass;
      assert sm == metas[superClass];
      if sm != null { MetaOf(metas, objectClass, superClass); }
      DefinedBelow(up, objectClass, was, superClass, sm, c, meta);
      MetaOf(metas, objectClass, objectClass);
      DefinedBelow(up, objectClass, was, objectClass, objectClass.metaClass, c, meta);
      BelowMeans(was, up, c, meta, objectClass, objectClass.metaClass);
      assert chains[superClass] == was[superClass];
      RelinkNewClass(up, objectClass, was, c, meta, [objectClass], ChainFrom(was, objectClass.metaClass),
                     was[superClass], ChainFrom(was, sm));
      TwoUpdates(up, c, meta, objectClass, objectClass.metaClass, superClass, sm);
      SameChainFrom(was, chains, sm);
      hide Below;
      c.Inherits(superClass, this);
      IsBelow(was, up, c, meta, superClass, sm);
      r := Ok(c);
    }
  }

  /** A class below one whose metaclass does not end at Object: its metaclass has no ancestors, and cannot
      be extended. */
  method BelowUnrooted(h: Hierarchy, sc: RClass, m: RClass, name: string)
    returns (own: Result<seq<RClass>, ClassError>, meta: Result<seq<RClass>, ClassError>, extended: Result<RClass,
             ClassError>)
    requires h.Valid() && {sc, m} <= h.chains.Keys && name != OBJECT && h.objectClass.metaClass != null
    requires !sc.isModule && h.Rooted(sc) && sc.metaClass != null && sc.metaClass in h.chains && !h.Rooted(sc.metaClass)
    requires m.isModule && NoneBelow(h.Up(), m)
    modifies h
    ensures own.Ok? && meta == Err(NilDereference) && extended == Err(NilDereference)
  {
    hide Chained, MetasOk, OnlyObject, BareOf, NoneBelow, ChainFrom, EndsAt;
    var r, c := h.DefineClass(name, sc);
    var x: RClass := c.metaClass;
    own := c.Ancestors(h);
    meta := x.Ancestors(h);
    h.NeverNoticed(x, m);
    h.Unrooted(x, m);
    ghost var copy;
    extended, copy := c.Extend(m, h);
  }

  /** Below Class, that is. */
  method BelowClass(name: string)
    returns (own: Result<seq<RClass>, ClassError>, meta: Result<seq<RClass>, ClassError>, extended: Result<RClass,
             ClassError>)
    requires name != OBJECT
    ensures own.Ok? && meta == Err(NilDereference) && extended == Err(NilDereference)
  {
    var h := new Hierarchy();
    hide Chained, MetasOk, OnlyObject, BareOf, NoneBelow, EndsAt;
    assert !h.classClass.isModule && !h.Rooted(h.classClass.metaClass) && h.Rooted(h.classClass);
    hide Distinct, BootChains;
    var m := h.InitModule("M");
    own, meta, extended := BelowUnrooted(h, h.classClass, m, name);
  }
}
