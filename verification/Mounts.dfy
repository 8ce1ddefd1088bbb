/**
 The dry run's headline: which mount decides what is visible at a path, and whether a
 writable host directory can hide below a line that says read-only.

 The reference is the sandbox itself: mounts are made in SortedMounts order, each one
 covering its whole subtree, so at any path the last covering mount is what is there.
 */
module Mounts {
  import opened Options
  import opened Strings

  type Path = string

  datatype Kind = Bind | Tmpfs | Another

  datatype Access = RO | RW

  datatype Mount = Mount(guest: Path, kind: Kind, access: Access)

  predicate Below(p: Path, q: Path) { p + "/" <= q }

  // The code's test for "at or above": strings.HasPrefix on guest + "/".
  predicate Covers(guest: Path, q: Path) { guest == q || Below(guest, q) }

  // The kernel's: the root is above everything.
  predicate ReallyCovers(guest: Path, q: Path) { Covers(guest, q) || guest == "/" }

  predicate Decides(m: Mount) { m.kind == Bind || m.kind == Tmpfs }

  predicate WritableBind(m: Mount) { m.kind == Bind && m.access == RW }

  predicate Absolute(p: Path) { "/" <= p }

  // p.Mounts is keyed by the guest path, and Validate admits absolute ones only.
  ghost predicate Keyed(mounts: map<Path, Mount>) {
    forall g :: g in mounts ==> mounts[g].guest == g && Absolute(g)
  }

  // ---- the order mounts are made in ------------------------------------------------------

  function Depth(p: Path): nat { if p == "" then 0 else (if p[0] == '/' then 1 else 0) + Depth(p[1..]) }

  predicate MadeBefore(a: Path, b: Path) { Depth(a) < Depth(b) || (Depth(a) == Depth(b) && Less(a, b)) }

  // SortedMounts: every mount once, by depth and then by name.
  ghost predicate Sorted(mounts: map<Path, Mount>, ms: seq<Mount>) {
    && (forall i, j :: 0 <= i < j < |ms| ==> MadeBefore(ms[i].guest, ms[j].guest))
    && (forall m :: m in ms <==> m.guest in mounts && mounts[m.guest] == m)
  }

  lemma {:induction false} PrefixIsLess(a: Path, b: Path)
    requires a <= b && a != b
    ensures Less(a, b) && Depth(a) <= Depth(b)
  {
    if a != "" {
      PrefixIsLess(a[1..], b[1..]);
    }
  }

  lemma {:induction false} DepthBelow(a: Path, b: Path)
    requires Below(a, b)
    ensures Depth(a) < Depth(b)
  {
    if a != "" {
      assert (a + "/")[1..] == a[1..] + "/";
      DepthBelow(a[1..], b[1..]);
    } else {
      assert b[0] == (a + "/")[0];
    }
  }

  /** Parents first: what is strictly above comes strictly before, the root included
      (it has the depth of its own children and wins by name). */
  lemma AncestorsAreMadeFirst(a: Path, b: Path)
    requires ReallyCovers(a, b) && a != b && Absolute(b)
    ensures MadeBefore(a, b) && !MadeBefore(b, a)
  {
    if Below(a, b) {
      DepthBelow(a, b);
    } else {
      PrefixIsLess(a, b);
      LessIsStrict(a, b);
    }
  }

  // ---- what is really there -------------------------------------------------------------

  // The last bind or tmpfs made that covers q.
  function Effective(ms: seq<Mount>, q: Path): Option<Mount> {
    if ms == [] then None
    else
      var last := ms[|ms| - 1];
      if Decides(last) && ReallyCovers(last.guest, q) then Some(last) else Effective(ms[..|ms| - 1], q)
  }

  lemma {:induction false} EffectiveIsLast(ms: seq<Mount>, q: Path, i: nat)
    requires i < |ms| && Decides(ms[i]) && ReallyCovers(ms[i].guest, q)
    ensures Effective(ms, q).Some?
    ensures exists j :: i <= j < |ms| && Effective(ms, q) == Some(ms[j]) && Decides(ms[j]) && ReallyCovers(ms[j].guest, q)
  {
    var n := |ms| - 1;
    if Decides(ms[n]) && ReallyCovers(ms[n].guest, q) {
      assert Effective(ms, q) == Some(ms[n]);
    } else {
      EffectiveIsLast(ms[..n], q, i);
      var j :| i <= j < n && Effective(ms[..n], q) == Some(ms[..n][j]) && Decides(ms[j]) && ReallyCovers(ms[j].guest, q);
      assert Effective(ms, q) == Some(ms[j]);
    }
  }

  lemma {:induction false} EffectiveCovers(ms: seq<Mount>, q: Path)
    requires Effective(ms, q).Some?
    ensures var m := Effective(ms, q).value; m in ms && Decides(m) && ReallyCovers(m.guest, q)
  {
    var n := |ms| - 1;
    if !(Decides(ms[n]) && ReallyCovers(ms[n].guest, q)) {
      EffectiveCovers(ms[..n], q);
    }
  }

  // The last mount of any kind made over q: a device, a symlink or a generated file hides
  // what it lies on just as well.
  function InEffect(ms: seq<Mount>, q: Path): Option<Mount> {
    if ms == [] then None
    else
      var last := ms[|ms| - 1];
      if ReallyCovers(last.guest, q) then Some(last) else InEffect(ms[..|ms| - 1], q)
  }

  lemma {:induction false} InEffectIsLast(ms: seq<Mount>, q: Path, i: nat) returns (j: nat)
    requires i < |ms| && ReallyCovers(ms[i].guest, q)
    ensures i <= j < |ms| && InEffect(ms, q) == Some(ms[j]) && ReallyCovers(ms[j].guest, q)
  {
    var n := |ms| - 1;
    if ReallyCovers(ms[n].guest, q) {
      j := n;
    } else {
      j := InEffectIsLast(ms[..n], q, i);
    }
  }

  // Where a bind or a tmpfs is in effect it is the last bind or tmpfs too.
  lemma {:induction false} InEffectIsEffective(ms: seq<Mount>, q: Path)
    requires InEffect(ms, q).Some? && Decides(InEffect(ms, q).value)
    ensures Effective(ms, q) == InEffect(ms, q)
  {
    var n := |ms| - 1;
    if !ReallyCovers(ms[n].guest, q) {
      InEffectIsEffective(ms[..n], q);
    }
  }

  // Two guests over one path are one above the other.
  lemma CoversCompare(a: Path, b: Path, q: Path)
    requires Covers(a, q) && Covers(b, q) && |a| <= |b|
    ensures a == b || Below(a, b)
  {
    if |a| < |b| {
      assert a + "/" == q[..|a| + 1] == b[..|a| + 1];
    } else {
      assert a == q[..|a|] == b;
    }
  }

  // ---- mountedAt -----------------------------------------------------------------------------

  // The deepest bind or tmpfs at or above the path, by the code's test.
  ghost predicate IsDeepest(mounts: map<Path, Mount>, path: Path, r: Option<Mount>) {
    match r
    case None => forall g :: g in mounts && Decides(mounts[g]) ==> !Covers(g, path)
    case Some(m) =>
      && m.guest in mounts && mounts[m.guest] == m && Decides(m) && Covers(m.guest, path)
      && forall g :: g in mounts && Decides(mounts[g]) && Covers(g, path) ==> |g| <= |m.guest|
  }

  /** In so many words: a bind or a tmpfs at the path or, a slash further, at the front of it,
      and none longer. */
  lemma DeepestMeans(mounts: map<Path, Mount>, path: Path, r: Option<Mount>, g: Path)
    requires IsDeepest(mounts, path, r)
    ensures r.Some? ==>
              var m := r.value;
              && m.guest in mounts && mounts[m.guest] == m && (m.kind == Bind || m.kind == Tmpfs)
              && (m.guest == path || m.guest + "/" <= path)
    ensures g in mounts && (mounts[g].kind == Bind || mounts[g].kind == Tmpfs) && (g == path || g + "/" <= path) ==>
              r.Some? && |g| <= |r.value.guest|
  {
  }

  // The map is visited in whatever order.
  method MountedAt(mounts: map<Path, Mount>, path: Path) returns (best: Option<Mount>)
    requires Keyed(mounts)
    ensures IsDeepest(mounts, path, best)
  {
    best := None;
    var todo := mounts.Keys;
    ghost var done: map<Path, Mount> := map[];
    while todo != {}
      invariant todo <= mounts.Keys && done == map g | g in mounts && g !in todo :: mounts[g]
      invariant IsDeepest(done, path, best)
      decreases |todo|
    {
      var g :| g in todo;
      var m := mounts[g];
      todo := todo - {g};
      done := done[g := m];
      if Decides(m) && Covers(m.guest, path) {
        if best.None? || |best.value.guest| < |m.guest| {
          best := Some(m);
        }
      }
    }
    assert done == mounts;
  }

  /** The answer does not depend on the order the map is visited in. */
  lemma DeepestIsUnique(mounts: map<Path, Mount>, path: Path, a: Option<Mount>, b: Option<Mount>)
    requires Keyed(mounts) && IsDeepest(mounts, path, a) && IsDeepest(mounts, path, b)
    ensures a == b
  {
    if a.Some? && b.Some? {
      CoversCompare(a.value.guest, b.value.guest, path);
    }
  }

  // Of two mounts over one path the deeper is made later.
  lemma DeeperIsMadeLater(a: Path, b: Path, path: Path)
    requires Absolute(a) && Absolute(b) && ReallyCovers(a, path) && Covers(b, path) && a != b
    requires a == "/" || |a| <= |b|
    ensures MadeBefore(a, b) && !MadeBefore(b, a)
  {
    if a != "/" {
      CoversCompare(a, b, path);
    }
    AncestorsAreMadeFirst(a, b);
  }

  predicate RootDecides(mounts: map<Path, Mount>) { "/" in mounts && Decides(mounts["/"]) }

  /** DEEPEST IS LAST.  mountedAt answers with the mount that is really in effect, except
      when nothing but a mount at the root covers the path: that one it does not see. */
  lemma MountedAtIsEffective(mounts: map<Path, Mount>, ms: seq<Mount>, path: Path, r: Option<Mount>)
    requires Keyed(mounts) && Sorted(mounts, ms) && Absolute(path) && path != "/"
    requires IsDeepest(mounts, path, r)
    ensures r == Effective(ms, path) <==> r.Some? || !RootDecides(mounts)
  {
    if r.Some? {
      var i :| 0 <= i < |ms| && ms[i] == r.value;
      EffectiveIsLast(ms, path, i);
      var j :| i <= j < |ms| && Effective(ms, path) == Some(ms[j]) && Decides(ms[j]) && ReallyCovers(ms[j].guest, path);
      assert ms[j] in ms;
      if ms[j].guest != r.value.guest {
        assert MadeBefore(ms[i].guest, ms[j].guest);
        DeeperIsMadeLater(ms[j].guest, ms[i].guest, path);
      }
    } else if RootDecides(mounts) {
      assert mounts["/"] in ms;
      var i :| 0 <= i < |ms| && ms[i] == mounts["/"];
      EffectiveIsLast(ms, path, i);
    } else if Effective(ms, path).Some? {
      EffectiveCovers(ms, path);
    }
  }

  // ---- the headline ------------------------------------------------------------------------

  function Inside(ms: seq<Mount>, path: Path, covering: Mount): seq<Path> {
    if ms == [] then []
    else
      var m, before := ms[|ms| - 1], Inside(ms[..|ms| - 1], path, covering);
      if WritableBind(m) && m.guest != covering.guest && Below(path, m.guest) then before + [m.guest] else before
  }

  method WritableBelow(ms: seq<Mount>, path: Path, covering: Mount) returns (inside: seq<Path>)
    ensures inside == Inside(ms, path, covering)
  {
    inside := [];
    var i := 0;
    while i < |ms|
      invariant i <= |ms| && inside == Inside(ms[..i], path, covering)
    {
      assert ms[..i + 1][..i] == ms[..i];
      var m := ms[i];
      if WritableBind(m) && m.guest != covering.guest && Below(path, m.guest) {
        inside := inside + [m.guest];
      }
      i := i + 1;
    }
    assert ms[..|ms|] == ms;
  }

  // The clause names exactly the writable binds strictly inside.
  lemma {:induction false} InsideNames(ms: seq<Mount>, path: Path, covering: Mount, g: Path)
    ensures g in Inside(ms, path, covering) <==>
              exists m :: m in ms && m.guest == g && m.kind == Bind && m.access == RW
                && g != covering.guest && path + "/" <= g
  {
    if ms != [] {
      var n := |ms| - 1;
      InsideNames(ms[..n], path, covering, g);
      assert ms == ms[..n] + [ms[n]];
    }
  }

  datatype Word = TmpfsWord | WritableWord | ReadOnlyWord

  function AccessWord(m: Mount): Word {
    if m.kind == Tmpfs then TmpfsWord else if m.access == RW then WritableWord else ReadOnlyWord
  }

  datatype Annotation = NotMounted | Note(word: Word, via: Option<Path>, writable: seq<Path>)

  method PathAnnotation(mounts: map<Path, Mount>, ms: seq<Mount>, path: Path) returns (a: Annotation)
    requires Keyed(mounts) && Sorted(mounts, ms)
    ensures exists r :: IsDeepest(mounts, path, r) && a == AnnotationFor(ms, path, r)
    ensures a == NotMounted <==> IsDeepest(mounts, path, None)
    ensures a.Note? ==>
              exists m :: IsDeepest(mounts, path, Some(m))
                && a.word == (if m.kind == Tmpfs then TmpfsWord else if m.access == RW then WritableWord else ReadOnlyWord)
                && a.via == (if m.guest != path then Some(m.guest) else None)
  {
    var r := MountedAt(mounts, path);
    if r.None? {
      return NotMounted;
    }
    var m := r.value;
    var inside := WritableBelow(ms, path, m);
    return Note(AccessWord(m), if m.guest != path then Some(m.guest) else None, inside);
  }

  function AnnotationFor(ms: seq<Mount>, path: Path, r: Option<Mount>): Annotation {
    match r
    case None => NotMounted
    case Some(m) => Note(AccessWord(m), if m.guest != path then Some(m.guest) else None, Inside(ms, path, m))
  }

  // Judged among binds and tmpfs mounts, as mountedAt judges, a write at or below the path
  // reaches a host directory.
  ghost predicate WritesPersist(ms: seq<Mount>, path: Path) {
    exists q :: Covers(path, q) && Effective(ms, q).Some? && WritableBind(Effective(ms, q).value)
  }

  // A mount is in effect at its own guest path.
  lemma EffectiveAtItself(mounts: map<Path, Mount>, ms: seq<Mount>, m: Mount)
    requires Keyed(mounts) && Sorted(mounts, ms) && m in ms && Decides(m) && m.guest != "/"
    ensures Effective(ms, m.guest) == Some(m)
  {
    assert IsDeepest(mounts, m.guest, Some(m));
    MountedAtIsEffective(mounts, ms, m.guest, Some(m));
  }

  // What is in effect below the path is either what covers the path or is strictly inside.
  lemma EffectiveBelow(mounts: map<Path, Mount>, ms: seq<Mount>, path: Path, m: Mount, q: Path)
    requires Keyed(mounts) && Sorted(mounts, ms) && Absolute(path) && path != "/"
    requires IsDeepest(mounts, path, Some(m)) && Covers(path, q)
    ensures Effective(ms, q).Some?
    ensures var e := Effective(ms, q).value; e == m || (e in ms && e.guest != m.guest && Below(path, e.guest))
  {
    CoversTransitive(m.guest, path, q);
    var i :| 0 <= i < |ms| && ms[i] == m;
    EffectiveIsLast(ms, q, i);
    var j :| i <= j < |ms| && Effective(ms, q) == Some(ms[j]) && Decides(ms[j]) && ReallyCovers(ms[j].guest, q);
    var e := ms[j];
    assert e in ms;
    if e.guest == m.guest {
      return;
    }
    assert MadeBefore(m.guest, e.guest);
    if e.guest == "/" || |e.guest| <= |m.guest| {
      DeeperIsMadeLater(e.guest, m.guest, q);
    } else if |e.guest| <= |path| {
      CoversCompare(e.guest, path, q);
    } else {
      CoversCompare(path, e.guest, q);
    }
  }

  lemma CoversTransitive(a: Path, b: Path, c: Path)
    requires Covers(a, b) && Covers(b, c)
    ensures Covers(a, c)
  {
    if Below(a, b) && Below(b, c) {
      assert a + "/" == b[..|a| + 1] == c[..|a| + 1];
    }
  }

  /** THE HEADLINE IS EXACT.  For a path some mount covers, the bind-or-tmpfs mount in effect
      at it or somewhere below it is a writable bind if and only if the annotation says
      "writable" or carries the WRITABLE clause; so a bare "read-only" or "tmpfs" hides
      nothing. */
  lemma HeadlineIsExact(mounts: map<Path, Mount>, ms: seq<Mount>, path: Path, r: Option<Mount>)
    requires Keyed(mounts) && Sorted(mounts, ms) && Absolute(path) && path != "/"
    requires IsDeepest(mounts, path, r) && r.Some?
    ensures var a := AnnotationFor(ms, path, r);
            WritesPersist(ms, path) <==> a.word == WritableWord || a.writable != []
  {
    var a, m := AnnotationFor(ms, path, r), r.value;
    MountedAtIsEffective(mounts, ms, path, r);
    if a.writable != [] {
      var g := a.writable[0];
      InsideNames(ms, path, m, g);
      var w :| w in ms && w.guest == g && WritableBind(w) && Below(path, g);
      EffectiveAtItself(mounts, ms, w);
      assert Covers(path, g) && WritableBind(Effective(ms, g).value);
    }
    if a.word == WritableWord {
      assert Covers(path, path) && WritableBind(Effective(ms, path).value);
    }
    forall q | Covers(path, q) && Effective(ms, q).Some? && WritableBind(Effective(ms, q).value)
      ensures a.word == WritableWord || a.writable != []
    {
      EffectiveBelow(mounts, ms, path, m, q);
      InsideNames(ms, path, m, Effective(ms, q).value.guest);
    }
  }

  // With every kind of mount in its place.
  ghost predicate ReallyPersists(ms: seq<Mount>, path: Path) {
    exists q :: (path == q || path + "/" <= q) && InEffect(ms, q).Some?
      && InEffect(ms, q).value.kind == Bind && InEffect(ms, q).value.access == RW
  }

  lemma InEffectAtItself(mounts: map<Path, Mount>, ms: seq<Mount>, m: Mount)
    requires Keyed(mounts) && Sorted(mounts, ms) && m in ms
    ensures InEffect(ms, m.guest) == Some(m)
  {
    var i :| 0 <= i < |ms| && ms[i] == m;
    var j := InEffectIsLast(ms, m.guest, i);
    assert ms[j] in ms;
    if ms[j].guest != m.guest {
      AncestorsAreMadeFirst(ms[j].guest, m.guest);
    }
  }

  // What hides m at the path hides it everywhere below.
  lemma HiddenAtIsHiddenBelow(mounts: map<Path, Mount>, ms: seq<Mount>, path: Path, m: Mount, q: Path)
    requires Keyed(mounts) && Sorted(mounts, ms) && m in ms && ReallyCovers(m.guest, path) && Covers(path, q)
    requires InEffect(ms, q) == Some(m)
    ensures InEffect(ms, path) == Some(m)
  {
    var i :| 0 <= i < |ms| && ms[i] == m;
    var j := InEffectIsLast(ms, path, i);
    if ms[j].guest != "/" {
      CoversTransitive(ms[j].guest, path, q);
    }
    var k := InEffectIsLast(ms, q, j);
    assert i < k ==> MadeBefore(ms[i].guest, ms[k].guest);
    OrderIsStrict(m.guest);
  }

  lemma OrderIsStrict(a: Path)
    ensures !MadeBefore(a, a)
  {
    if Less(a, a) {
      LessIsStrict(a, a);
    }
  }

  /** With devices, symlinks and generated files counted too, a write at or below a covered
      path persists if and only if the annotation carries the WRITABLE clause, or says
      "writable" and nothing else lies over that mount at the path.  So the headline never
      promises less than a write can do. */
  lemma HeadlineInFull(mounts: map<Path, Mount>, ms: seq<Mount>, path: Path, r: Option<Mount>)
    requires Keyed(mounts) && Sorted(mounts, ms) && Absolute(path) && path != "/"
    requires IsDeepest(mounts, path, r) && r.Some?
    ensures var a := AnnotationFor(ms, path, r);
            ReallyPersists(ms, path) <==> a.writable != [] || (a.word == WritableWord && InEffect(ms, path) == r)
  {
    var a, m := AnnotationFor(ms, path, r), r.value;
    if a.writable != [] {
      var g := a.writable[0];
      InsideNames(ms, path, m, g);
      var w :| w in ms && w.guest == g && WritableBind(w) && Below(path, g);
      InEffectAtItself(mounts, ms, w);
      assert Covers(path, g) && WritableBind(InEffect(ms, g).value);
    }
    if a.word == WritableWord && InEffect(ms, path) == r {
      assert Covers(path, path) && WritableBind(InEffect(ms, path).value);
    }
    forall q | Covers(path, q) && InEffect(ms, q).Some? && WritableBind(InEffect(ms, q).value)
      ensures a.writable != [] || (a.word == WritableWord && InEffect(ms, path) == r)
    {
      var e := InEffect(ms, q).value;
      InEffectIsEffective(ms, q);
      EffectiveBelow(mounts, ms, path, m, q);
      if e == m {
        HiddenAtIsHiddenBelow(mounts, ms, path, m, q);
      } else {
        InsideNames(ms, path, m, e.guest);
      }
    }
  }

  // A remark: at "/" itself the prefix the code looks for is "//", so no clause is ever written.
  lemma RootHasNoClause(ms: seq<Mount>, covering: Mount)
    requires forall m :: m in ms ==> !("//" <= m.guest)
    ensures Inside(ms, "/", covering) == []
  {
    assert "/" + "/" == "//";
    var inside := Inside(ms, "/", covering);
    if inside != [] {
      InsideNames(ms, "/", covering, inside[0]);
    }
  }

  /** For a path nothing covers the annotation is the bare "not mounted", and it is silent
      about exactly the writable binds strictly inside, for which no clause is computed. */
  lemma NotMountedIsSilent(mounts: map<Path, Mount>, ms: seq<Mount>, path: Path)
    requires Keyed(mounts) && Sorted(mounts, ms) && Absolute(path) && path != "/" && !RootDecides(mounts)
    requires IsDeepest(mounts, path, None)
    ensures AnnotationFor(ms, path, None) == NotMounted
    ensures WritesPersist(ms, path) <==> exists m :: m in ms && WritableBind(m) && Below(path, m.guest)
  {
    forall q | Covers(path, q) && Effective(ms, q).Some? && WritableBind(Effective(ms, q).value)
      ensures exists m :: m in ms && WritableBind(m) && Below(path, m.guest)
    {
      EffectiveCovers(ms, q);
      var e := Effective(ms, q).value;
      if |e.guest| <= |path| {
        CoversCompare(e.guest, path, q);
      } else {
        CoversCompare(path, e.guest, q);
      }
    }
    forall m | m in ms && WritableBind(m) && Below(path, m.guest) ensures WritesPersist(ms, path) {
      EffectiveAtItself(mounts, ms, m);
      assert Covers(path, m.guest);
    }
  }

  /** Such an arrangement exists. */
  lemma NotMountedMayHideAWritableBind()
    ensures var m := Mount("/home/u/src", Bind, RW);
            && Keyed(map[m.guest := m]) && Sorted(map[m.guest := m], [m])
            && IsDeepest(map[m.guest := m], "/home/u", None)
            && WritesPersist([m], "/home/u")
  {
    var m := Mount("/home/u/src", Bind, RW);
    assert "/home/u" + "/" == m.guest[..8];
    assert Effective([m], m.guest) == Some(m) && Covers("/home/u", m.guest);
  }

  // ---- coverageOf -------------------------------------------------------------------------------

  datatype Coverage = CoverageNone | CoveragePartial(beneath: nat) | CoverageFull

  // The host path of each bind; a bind strictly beneath the candidate counts, one at or
  // above it settles the question whenever it is met.
  method CoverageOf(binds: map<Path, Path>, host: Path) returns (c: Coverage)
    ensures c == CoverageFull <==> exists g :: g in binds && (binds[g] == host || binds[g] + "/" <= host)
    ensures !c.CoverageFull? ==>
              var beneath := set g | g in binds && host + "/" <= binds[g];
              c == if beneath == {} then CoverageNone else CoveragePartial(|beneath|)
  {
    var todo := binds.Keys;
    var n := 0;
    ghost var found: set<Path> := {};
    while todo != {}
      invariant todo <= binds.Keys && n == |found|
      invariant found == set g | g in binds && g !in todo && Below(host, binds[g])
      invariant forall g :: g in binds && g !in todo ==> !Covers(binds[g], host)
      decreases |todo|
    {
      var g :| g in todo;
      todo := todo - {g};
      if Covers(binds[g], host) {
        return CoverageFull;
      }
      if Below(host, binds[g]) {
        n := n + 1;
        found := found + {g};
      }
    }
    assert found == set g | g in binds && host + "/" <= binds[g];
    return if n > 0 then CoveragePartial(n) else CoverageNone;
  }
}
