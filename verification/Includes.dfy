/**
 The include graph of a profile registry, walked twice: refuseBadSelection's worklist
 decides whether a run may start, and printTree's depth-first search shows the graph.
 Registries may be cyclic and name profiles that are not there.
 */
module Includes {
  import opened Options

  type Name = string

  type Registry = map<Name, seq<Name>>  // a profile's include list

  // ---- reachability -----------------------------------------------------------------

  predicate Edge(reg: Registry, a: Name, b: Name) { a in reg && b in reg[a] }

  predicate IsPath(reg: Registry, p: seq<Name>) {
    p != [] && forall i :: 0 <= i < |p| - 1 ==> Edge(reg, p[i], p[i + 1])
  }

  ghost predicate Reaches(reg: Registry, roots: seq<Name>, n: Name) {
    exists p :: IsPath(reg, p) && p[0] in roots && p[|p| - 1] == n
  }

  lemma RootReaches(reg: Registry, roots: seq<Name>, n: Name)
    requires n in roots
    ensures Reaches(reg, roots, n)
  {
    assert IsPath(reg, [n]);
  }

  lemma EdgeReaches(reg: Registry, roots: seq<Name>, a: Name, b: Name)
    requires Reaches(reg, roots, a) && Edge(reg, a, b)
    ensures Reaches(reg, roots, b)
  {
    var p :| IsPath(reg, p) && p[0] in roots && p[|p| - 1] == a;
    assert IsPath(reg, p + [b]);
  }

  // A set that holds the roots and is closed under inclusion holds all that is reachable.
  lemma {:induction false} ClosedHoldsPath(reg: Registry, closed: set<Name>, p: seq<Name>, i: nat)
    requires IsPath(reg, p) && i < |p| && p[0] in closed
    requires forall a, b :: a in closed && Edge(reg, a, b) ==> b in closed
    ensures p[i] in closed
  {
    if i > 0 {
      ClosedHoldsPath(reg, closed, p, i - 1);
      assert Edge(reg, p[i - 1], p[i]);
    }
  }

  lemma ClosedHoldsReachable(reg: Registry, roots: seq<Name>, closed: set<Name>)
    requires forall n :: n in roots ==> n in closed
    requires forall a, b :: a in closed && Edge(reg, a, b) ==> b in closed
    ensures forall n :: Reaches(reg, roots, n) ==> n in closed
  {
    forall n | Reaches(reg, roots, n) ensures n in closed {
      var p :| IsPath(reg, p) && p[0] in roots && p[|p| - 1] == n;
      ClosedHoldsPath(reg, closed, p, |p| - 1);
    }
  }

  // ---- the worklist -------------------------------------------------------------------

  // What matters of a profile file that did not load.
  datatype BadFile = BadFile(namesKnown: bool, defines: seq<Name>)

  datatype Refusal = Nameless(count: nat) | Unknown(name: Name)

  function NamelessOf(bad: seq<BadFile>): nat {
    if bad == [] then 0 else (if bad[0].namesKnown then 0 else 1) + NamelessOf(bad[1..])
  }

  method RefuseNamelessBadFiles(bad: seq<BadFile>) returns (r: Option<Refusal>)
    ensures r == if NamelessOf(bad) == 0 then None else Some(Nameless(NamelessOf(bad)))
  {
    var nameless := 0;
    var i := 0;
    while i < |bad|
      invariant i <= |bad| && nameless + NamelessOf(bad[i..]) == NamelessOf(bad)
    {
      if !bad[i].namesKnown {
        nameless := nameless + 1;
      }
      i := i + 1;
    }
    return if nameless == 0 then None else Some(Nameless(nameless));
  }

  lemma {:induction false} NamelessIff(bad: seq<BadFile>)
    ensures NamelessOf(bad) == 0 <==> forall f :: f in bad ==> f.namesKnown
  {
    if bad != [] {
      NamelessIff(bad[1..]);
      assert bad == [bad[0]] + bad[1..];
    }
  }

  // The selection's closure lies in the registry.
  ghost predicate Whole(reg: Registry, selected: seq<Name>) {
    forall n :: Reaches(reg, selected, n) ==> n in reg
  }

  ghost predicate AllReached(reg: Registry, selected: seq<Name>, visited: set<Name>, queue: seq<Name>) {
    (forall n :: n in visited ==> Reaches(reg, selected, n)) && (forall n :: n in queue ==> Reaches(reg, selected, n))
  }

  // Nothing reachable is lost: it is visited, or still to come through the queue.
  ghost predicate NoneLost(reg: Registry, selected: seq<Name>, visited: set<Name>, queue: seq<Name>) {
    && (forall n :: n in selected ==> n in visited || n in queue)
    && (forall a, b :: a in visited && Edge(reg, a, b) ==> b in visited || b in queue)
  }

  lemma VisitKeepsReached(reg: Registry, selected: seq<Name>, visited: set<Name>, queue: seq<Name>)
    requires queue != [] && AllReached(reg, selected, visited, queue) && NoneLost(reg, selected, visited, queue)
    requires queue[0] in reg && queue[0] !in visited
    ensures AllReached(reg, selected, visited + {queue[0]}, queue[1..] + reg[queue[0]])
    ensures NoneLost(reg, selected, visited + {queue[0]}, queue[1..] + reg[queue[0]])
  {
    var n := queue[0];
    assert queue == [n] + queue[1..];
    forall b | b in reg[n] ensures Reaches(reg, selected, b) {
      assert Edge(reg, n, b);
      EdgeReaches(reg, selected, n, b);
    }
  }

  lemma SkipKeepsReached(reg: Registry, selected: seq<Name>, visited: set<Name>, queue: seq<Name>)
    requires queue != [] && AllReached(reg, selected, visited, queue) && NoneLost(reg, selected, visited, queue)
    requires queue[0] in visited
    ensures AllReached(reg, selected, visited, queue[1..]) && NoneLost(reg, selected, visited, queue[1..])
  {
    assert queue == [queue[0]] + queue[1..];
  }

  lemma OneFewer(reg: Registry, visited: set<Name>, n: Name)
    requires n in reg && n !in visited
    ensures |reg.Keys - (visited + {n})| < |reg.Keys - visited|
  {
    assert reg.Keys - (visited + {n}) == (reg.Keys - visited) - {n};
  }

  lemma {:induction false} FewerLeft(reg: Registry, a: set<Name>, b: set<Name>)
    requires a <= b
    ensures |reg.Keys - b| <= |reg.Keys - a|
    decreases |reg.Keys - a|
  {
    if n :| n in reg.Keys - a && n in b {
      OneFewer(reg, a, n);
      FewerLeft(reg, a + {n}, b);
    } else {
      assert reg.Keys - a == reg.Keys - b;
    }
  }

  // The walk: the first name met that the registry lacks, or everything reachable.
  method Walk(reg: Registry, selected: seq<Name>) returns (missing: Option<Name>, visited: set<Name>)
    ensures missing.Some? ==> Reaches(reg, selected, missing.value) && missing.value !in reg
    ensures missing.None? ==>
              visited <= reg.Keys && forall n :: n in visited <==> Reaches(reg, selected, n)
  {
    visited := {};
    var queue := selected;
    forall n | n in queue ensures Reaches(reg, selected, n) { RootReaches(reg, selected, n); }
    while queue != []
      invariant visited <= reg.Keys
      invariant AllReached(reg, selected, visited, queue) && NoneLost(reg, selected, visited, queue)
      decreases |reg.Keys - visited|, |queue|
    {
      var n := queue[0];
      if n in visited {
        SkipKeepsReached(reg, selected, visited, queue);
        queue := queue[1..];
      } else {
        if n !in reg {
          return Some(n), visited;
        }
        VisitKeepsReached(reg, selected, visited, queue);
        OneFewer(reg, visited, n);
        visited := visited + {n};
        queue := queue[1..] + reg[n];
      }
    }
    ClosedHoldsReachable(reg, selected, visited);
    return None, visited;
  }

  /** With a bad file about, a selection is let through exactly when every bad file's
      names are known and everything reachable from it loaded; a name refused is one the
      selection reaches and the registry lacks.  The walk ends on every graph. */
  method RefuseBadSelection(reg: Registry, selected: seq<Name>, bad: seq<BadFile>) returns (r: Option<Refusal>)
    ensures bad == [] ==> r == None
    ensures bad != [] ==>
              (r == None <==> (forall f :: f in bad ==> f.namesKnown) && Whole(reg, selected))
    ensures r.Some? && r.value.Nameless? ==> r.value.count == NamelessOf(bad) > 0
    ensures r.Some? && r.value.Unknown? ==>
              && NamelessOf(bad) == 0
              && Reaches(reg, selected, r.value.name) && r.value.name !in reg
  {
    if bad == [] {
      return None;
    }
    NamelessIff(bad);
    r := RefuseNamelessBadFiles(bad);
    if r.Some? {
      return r;
    }
    var missing, visited := Walk(reg, selected);
    return match missing case None => None case Some(n) => Some(Unknown(n));
  }

  // ---- the tree ---------------------------------------------------------------------------

  datatype Mark = Missing | Expanded | AlreadyAbove

  // One printed line: the name, how deep, and which of the three branches printed it.
  datatype Line = Line(name: Name, depth: nat, mark: Mark)

  // What the lines mean: each with its own includes below it, one deeper, in their order.
  datatype Tree = Tree(name: Name, mark: Mark, kids: seq<Tree>)

  function Flat(t: Tree, depth: nat): seq<Line> { [Line(t.name, depth, t.mark)] + FlatAll(t.kids, depth + 1) }

  function FlatAll(ts: seq<Tree>, depth: nat): seq<Line> {
    if ts == [] then [] else FlatAll(ts[..|ts| - 1], depth) + Flat(ts[|ts| - 1], depth)
  }

  // An expanded profile has all its includes below it, in order; any other line has none.
  predicate Depicts(reg: Registry, t: Tree) {
    && (t.mark == Missing <==> t.name !in reg)
    && (if t.mark == Expanded then
          && |t.kids| == |reg[t.name]|
          && forall i :: 0 <= i < |t.kids| ==> t.kids[i].name == reg[t.name][i] && Depicts(reg, t.kids[i])
        else t.kids == [])
  }

  // One tree an include, in their order.
  predicate DepictAll(reg: Registry, ts: seq<Tree>, names: seq<Name>, n: nat) {
    n == |ts| <= |names| && forall i :: 0 <= i < n ==> ts[i].name == names[i] && Depicts(reg, ts[i])
  }

  lemma DepictOneMore(reg: Registry, ts: seq<Tree>, names: seq<Name>, n: nat, t: Tree)
    requires DepictAll(reg, ts, names, n) && n < |names| && t.name == names[n] && Depicts(reg, t)
    ensures DepictAll(reg, ts + [t], names, n + 1)
  {
  }

  lemma FlatAllThen(ts: seq<Tree>, t: Tree, depth: nat)
    ensures FlatAll(ts + [t], depth) == FlatAll(ts, depth) + Flat(t, depth)
  {
    assert (ts + [t])[..|ts|] == ts;
  }

  lemma AppendLines(a: seq<Line>, b: seq<Line>, c: seq<Line>)
    ensures (a + b) + c == a + (b + c)
  {
  }

  function Sum(reg: Registry, names: seq<Name>): nat {
    if names == [] then 0
    else (if names[0] in reg then |reg[names[0]]| else 0) + Sum(reg, names[1..])
  }

  lemma {:induction false} SumConcat(reg: Registry, a: seq<Name>, b: seq<Name>)
    ensures Sum(reg, a + b) == Sum(reg, a) + Sum(reg, b)
  {
    if a == [] {
      assert a + b == b;
    } else {
      assert (a + b)[1..] == a[1..] + b;
      SumConcat(reg, a[1..], b);
    }
  }

  // The names expanded, in the order they are.
  function ExpandedIn(lines: seq<Line>): seq<Name> {
    if lines == [] then []
    else (if lines[0].mark == Expanded then [lines[0].name] else []) + ExpandedIn(lines[1..])
  }

  lemma {:induction false} ExpandedConcat(a: seq<Line>, b: seq<Line>)
    ensures ExpandedIn(a + b) == ExpandedIn(a) + ExpandedIn(b)
  {
    if a == [] {
      assert a + b == b;
    } else {
      assert (a + b)[1..] == a[1..] + b;
      ExpandedConcat(a[1..], b);
    }
  }

  // The list holds each member of the set once and nothing else.
  predicate Once(names: seq<Name>, members: set<Name>) {
    if names == [] then members == {}
    else
      var n := |names| - 1;
      names[n] in members && Once(names[..n], members - {names[n]})
  }

  lemma {:induction false} OnceMeans(names: seq<Name>, members: set<Name>)
    requires Once(names, members)
    ensures forall i, j :: 0 <= i < j < |names| ==> names[i] != names[j]
    ensures forall m :: m in members <==> m in names
  {
    if names != [] {
      var n := |names| - 1;
      OnceMeans(names[..n], members - {names[n]});
      assert names == names[..n] + [names[n]];
      forall i | 0 <= i < n ensures names[i] != names[n] { assert names[i] in names[..n]; }
    }
  }

  // All of a's registered includes are in the set.
  predicate KidsIn(reg: Registry, a: Name, names: set<Name>) {
    a in reg && forall b :: b in reg[a] && b in reg ==> b in names
  }

  // Every expanded profile that is not still being expanded has its includes expanded too.
  ghost predicate Settled(reg: Registry, seen: set<Name>, open: set<Name>) {
    forall a :: a in seen && a !in open ==> KidsIn(reg, a, seen)
  }

  lemma {:induction false} ReachesThrough(reg: Registry, a: Name, b: Name, n: Name)
    requires Edge(reg, a, b) && Reaches(reg, [b], n)
    ensures Reaches(reg, [a], n)
  {
    var p :| IsPath(reg, p) && p[0] in [b] && p[|p| - 1] == n;
    assert p[0] == b;
    assert IsPath(reg, [a] + p);
  }

  function MarkFor(reg: Registry, seen: set<Name>, name: Name): Mark {
    if name !in reg then Missing else if name in seen then AlreadyAbove else Expanded
  }

  class Printer {
    const reg: Registry
    var seen: set<Name>
    var lines: seq<Line>
    ghost var owed: nat  // the includes of everything expanded so far

    constructor (reg: Registry)
      ensures Valid() && this.reg == reg && seen == {} && lines == [] && owed == 0
    {
      this.reg := reg;
      seen, lines, owed := {}, [], 0;
    }

    // Each profile is expanded at most once, and seen is just the expanded ones.
    ghost predicate Valid() reads this {
      seen <= reg.Keys && Once(ExpandedIn(lines), seen) && owed == Sum(reg, ExpandedIn(lines))
    }

    method Leaf(line: Line)
      requires Valid() && line.mark != Expanded
      modifies this`lines
      ensures Valid() && lines == old(lines) + [line]
    {
      ExpandedConcat(lines, [line]);
      assert ExpandedIn(lines + [line]) == ExpandedIn(lines);
      lines := lines + [line];
    }

    method Expand(name: Name, depth: nat)
      requires Valid() && name in reg && name !in seen
      modifies this
      ensures Valid() && lines == old(lines) + [Line(name, depth, Expanded)]
      ensures seen == old(seen) + {name} && owed == old(owed) + |reg[name]|
    {
      ExpandedConcat(lines, [Line(name, depth, Expanded)]);
      assert ExpandedIn([Line(name, depth, Expanded)]) == [name];
      SumConcat(reg, ExpandedIn(lines), [name]);
      assert (ExpandedIn(lines) + [name])[..|ExpandedIn(lines)|] == ExpandedIn(lines);
      assert seen + {name} - {name} == seen;
      assert Sum(reg, [name]) == |reg[name]|;
      lines := lines + [Line(name, depth, Expanded)];
      seen := seen + {name};
      owed := owed + |reg[name]|;
    }

    /** The subtree at name.  Everything registered that it leads to is expanded by the
        time it returns, unless it was already being expanded higher up; each expansion
        accounts for one line per include. */
    method PrintTree(name: Name, depth: nat, ghost open: set<Name>) returns (ghost tree: Tree)
      requires Valid() && open <= seen && Settled(reg, seen, open)
      modifies this
      ensures Valid() && old(seen) <= seen && (name in reg ==> name in seen) && Settled(reg, seen, open)
      ensures old(lines) < lines && lines[|old(lines)|] == Line(name, depth, MarkFor(reg, old(seen), name))
      ensures forall n :: n in seen && n !in old(seen) ==> Reaches(reg, [name], n)
      ensures |lines| + old(owed) == |old(lines)| + 1 + owed
      ensures tree.name == name && Depicts(reg, tree) && lines == old(lines) + Flat(tree, depth)
      decreases |reg.Keys - seen|, 0
    {
      if name !in reg {
        Leaf(Line(name, depth, Missing));
        return Tree(name, Missing, []);
      }
      if name in seen {
        Leaf(Line(name, depth, AlreadyAbove));
        return Tree(name, AlreadyAbove, []);
      }
      OneFewer(reg, seen, name);
      Expand(name, depth);
      RootReaches(reg, [name], name);
      ghost var kids := PrintKids(name, depth, open + {name});
      tree := Tree(name, Expanded, kids);
      AppendLines(old(lines), [Line(name, depth, Expanded)], FlatAll(kids, depth + 1));
    }

    // One include of name, whose own includes it reaches too.
    method PrintKid(name: Name, kid: Name, depth: nat, ghost open: set<Name>) returns (ghost tree: Tree)
      requires Valid() && open <= seen && Settled(reg, seen, open) && Edge(reg, name, kid)
      modifies this
      ensures Valid() && old(seen) <= seen && old(lines) <= lines && (kid in reg ==> kid in seen)
      ensures Settled(reg, seen, open)
      ensures forall n :: n in seen && n !in old(seen) ==> Reaches(reg, [name], n)
      ensures |lines| + old(owed) == |old(lines)| + 1 + owed
      ensures tree.name == kid && Depicts(reg, tree) && lines == old(lines) + Flat(tree, depth)
      decreases |reg.Keys - seen|, 1
    {
      tree := PrintTree(kid, depth, open);
      forall n | n in seen && n !in old(seen) ensures Reaches(reg, [name], n) {
        ReachesThrough(reg, name, kid, n);
      }
    }

    method PrintKids(name: Name, depth: nat, ghost open: set<Name>) returns (ghost trees: seq<Tree>)
      requires Valid() && name in reg && name in open && open <= seen && Settled(reg, seen, open)
      modifies this
      ensures Valid() && old(seen) <= seen && old(lines) <= lines && Settled(reg, seen, open - {name})
      ensures forall n :: n in seen && n !in old(seen) ==> Reaches(reg, [name], n)
      ensures |lines| + old(owed) == |old(lines)| + |reg[name]| + owed
      ensures lines == old(lines) + FlatAll(trees, depth + 1) && DepictAll(reg, trees, reg[name], |reg[name]|)
      decreases |reg.Keys - seen|, 2
    {
      var kids := reg[name];
      var i := 0;
      trees := [];
      while i < |kids|
        invariant i <= |kids| && Valid() && old(seen) <= seen && old(lines) <= lines
        invariant forall k :: 0 <= k < i && kids[k] in reg ==> kids[k] in seen
        invariant Settled(reg, seen, open)
        invariant forall n :: n in seen && n !in old(seen) ==> Reaches(reg, [name], n)
        invariant |lines| + old(owed) == |old(lines)| + i + owed
        invariant lines == old(lines) + FlatAll(trees, depth + 1) && DepictAll(reg, trees, kids, i)
      {
        FewerLeft(reg, old(seen), seen);
        ghost var tree := PrintKid(name, kids[i], depth + 1, open);
        FlatAllThen(trees, tree, depth + 1);
        DepictOneMore(reg, trees, kids, i, tree);
        AppendLines(old(lines), FlatAll(trees, depth + 1), Flat(tree, depth + 1));
        trees := trees + [tree];
        i := i + 1;
      }
    }
  }

  lemma {:induction false} SettledHoldsPath(reg: Registry, seen: set<Name>, p: seq<Name>, i: nat)
    requires Settled(reg, seen, {}) && IsPath(reg, p) && i < |p|
    requires p[0] in reg ==> p[0] in seen
    ensures p[i] in reg ==> p[i] in seen
  {
    if i > 0 {
      assert Edge(reg, p[i - 1], p[i]);
      SettledHoldsPath(reg, seen, p, i - 1);
    }
  }

  /** `snug profile tree` on one root.  The profiles expanded are exactly the registered
      ones the root reaches, cycles and diamonds included, which is what the worklist
      visits; each is expanded once, and a registered root prints one line, plus one for
      every include of every profile expanded: the lines are the graph unfolded, each
      expanded profile with its includes below it in their order. */
  method ShowTree(reg: Registry, root: Name)
    returns (lines: seq<Line>, expanded: set<Name>, ghost tree: Tree)
    requires root in reg
    ensures tree.name == root && Depicts(reg, tree) && lines == Flat(tree, 0)
    ensures forall n :: n in expanded <==> n in reg && Reaches(reg, [root], n)
    ensures Once(ExpandedIn(lines), expanded)
    ensures |lines| == 1 + Sum(reg, ExpandedIn(lines))
    ensures lines != [] && lines[0] == Line(root, 0, Expanded)
  {
    var printer := new Printer(reg);
    tree := printer.PrintTree(root, 0, {});
    lines, expanded := printer.lines, printer.seen;
    forall n | n in reg && Reaches(reg, [root], n) ensures n in expanded {
      var p :| IsPath(reg, p) && p[0] in [root] && p[|p| - 1] == n;
      SettledHoldsPath(reg, expanded, p, |p| - 1);
    }
  }
}
