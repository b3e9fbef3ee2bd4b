/** Taking a mount transaction down again: unmounting its points and removing
    its directories, one path at a time. */
module Teardown {
  import opened Namespace
  import opened PathGuard
  import opened Tree
  import opened Workspace

  /** Lazy unmounting of the mount a path leads to, if there is one. */
  function Unmounted(i: Image, path: Path): Image {
    match Resolve(i.tree, path, true)
    case At(q) => Detached(i, q)
    case _ => i
  }

  /** Removing a file or an empty directory that is no mount point. */
  function Removed(i: Image, path: Path): Tree {
    match Resolve(i.tree, path, false)
    case At(q) =>
      if q in i.tree && !IsPoint(i.mounts, q) && forall x | x in i.tree :: !Above(q, x) then i.tree - {q} else i.tree
    case _ => i.tree
  }

  // ---- Unmounting in a tidy state ----

  lemma {:induction false} OutsideHas(mounts: seq<Mounted>, q: Path)
    ensures forall m :: m in Outside(mounts, q) <==> m in mounts && !Upto(q, m.point)
  {
    if mounts != [] {
      var m, before := mounts[|mounts| - 1], mounts[..|mounts| - 1];
      OutsideHas(before, q);
      assert mounts == before + [m];
    }
  }

  lemma OrderedFront(mounts: seq<Mounted>, m: Mounted)
    requires Ordered(mounts + [m])
    ensures Ordered(mounts) && forall x | x in mounts :: !Upto(m.point, x.point)
  {
    var all := mounts + [m];
    assert forall a | 0 <= a < |mounts| :: mounts[a] == all[a];
    forall x | x in mounts ensures !Upto(m.point, x.point) {
      var a :| 0 <= a < |mounts| && mounts[a] == x;
      assert all[a] == x && all[|mounts|] == m;
    }
  }

  lemma {:induction false} OutsideKeeps(mounts: seq<Mounted>, q: Path)
    ensures forall m :: m in Outside(mounts, q) <==> m in mounts && !Upto(q, m.point)
    ensures Ordered(mounts) ==> Ordered(Outside(mounts, q))
  {
    OutsideHas(mounts, q);
    if mounts != [] && Ordered(mounts) {
      var m, before := mounts[|mounts| - 1], mounts[..|mounts| - 1];
      assert mounts == before + [m];
      OrderedFront(before, m);
      OutsideKeeps(before, q);
      OrderedJoin(Outside(before, q), if Upto(q, m.point) then [] else [m]);
    }
  }

  lemma OrderedJoin(front: seq<Mounted>, back: seq<Mounted>)
    requires Ordered(front) && Ordered(back)
    requires forall x, y | x in front && y in back :: !Upto(y.point, x.point)
    ensures Ordered(front + back)
  {
  }

  function Without(extra: seq<Mounted>, e: nat, q: Path): seq<Mounted>
    requires e < |extra|
  {
    extra[..e] + Outside(extra[e + 1..], q)
  }

  lemma AroundMount(extra: seq<Mounted>, e: nat)
    requires Ordered(extra) && e < |extra|
    ensures Ordered(extra[..e]) && Ordered(extra[e + 1..])
    ensures forall x | x in extra[..e] :: !Upto(extra[e].point, x.point)
    ensures forall x, y | x in extra[..e] && y in extra[e + 1..] :: !Upto(y.point, x.point)
  {
    var back := extra[e + 1..];
    forall x | x in extra[..e] ensures !Upto(extra[e].point, x.point) {
      var a :| 0 <= a < e && extra[a] == x;
    }
    forall x, y | x in extra[..e] && y in back ensures !Upto(y.point, x.point) {
      var a :| 0 <= a < e && extra[a] == x;
      var b :| 0 <= b < |back| && back[b] == y;
      assert extra[e + 1 + b] == y;
    }
  }

  lemma WithoutHas(extra: seq<Mounted>, e: nat, q: Path)
    requires e < |extra| && extra[e].point == q && forall x | x in extra[..e] :: !Upto(q, x.point)
    ensures forall m :: m in Without(extra, e, q) <==> m in extra && !Upto(q, m.point)
  {
    OutsideHas(extra[e + 1..], q);
    assert extra == extra[..e] + [extra[e]] + extra[e + 1..];
  }

  lemma WithoutKeeps(extra: seq<Mounted>, e: nat, q: Path)
    requires Ordered(extra) && e < |extra| && extra[e].point == q
    ensures Ordered(Without(extra, e, q))
    ensures forall m :: m in Without(extra, e, q) <==> m in extra && !Upto(q, m.point)
  {
    AroundMount(extra, e);
    WithoutHas(extra, e, q);
    OutsideKeeps(extra[e + 1..], q);
    OrderedJoin(extra[..e], Outside(extra[e + 1..], q));
  }

  lemma LastIsExtra(mounts0: seq<Mounted>, extra: seq<Mounted>, q: Path)
    requires IsPoint(extra, q)
    ensures IsPoint(mounts0 + extra, q) && LastAt(mounts0 + extra, q) >= |mounts0|
  {
    var p :| p in extra && p.point == q;
    var at :| 0 <= at < |extra| && extra[at] == p;
    assert (mounts0 + extra)[|mounts0| + at] == p;
  }

  /** Detaching takes off one mount of the run, and those below it. */
  lemma DetachedIs(mounts0: seq<Mounted>, extra: seq<Mounted>, t: Tree, q: Path) returns (e: nat)
    requires IsPoint(extra, q)
    ensures e < |extra| && extra[e].point == q
    ensures Detached(Image(t, mounts0 + extra), q) ==
            Image(RemoveTree(t, q) + extra[e].hidden, mounts0 + Without(extra, e, q))
  {
    var all := mounts0 + extra;
    LastIsExtra(mounts0, extra, q);
    var k := LastAt(all, q);
    e := k - |mounts0|;
    CutBehind(mounts0, extra, e);
    assert Detached(Image(t, all), q).mounts == all[..k] + Outside(all[k + 1..], q);
    JoinThree(mounts0, extra[..e], Outside(extra[e + 1..], q));
  }

  lemma JoinThree(a: seq<Mounted>, b: seq<Mounted>, c: seq<Mounted>)
    ensures a + b + c == a + (b + c)
  {
  }

  lemma CutBehind(mounts0: seq<Mounted>, extra: seq<Mounted>, e: nat)
    requires e < |extra|
    ensures (mounts0 + extra)[|mounts0| + e] == extra[e] && (mounts0 + extra)[..|mounts0| + e] == mounts0 + extra[..e]
    ensures (mounts0 + extra)[|mounts0| + e + 1..] == extra[e + 1..]
  {
  }

  /** A point of a tidy state resolves to itself, and only it can be mounted. */
  lemma PointResolves(k: Setting, i: Image, n: Path)
    requires k.Valid() && Grown(k, i) && k.BothAccepted() && !k.Linked() && WaysTidy(k, i) && n in k.Names()
    ensures var p := k.Root() + n;
      forall follow :: Resolve(i.tree, k.Temp() + n, follow) == if Parent(p) in i.tree then At(p) else NoEntry
  {
    NotLinked(k);
    NamesArePlain(k, n);
    var p := k.Root() + n;
    assert Plain(p) && p != [];
    forall follow ensures Resolve(i.tree, p, follow) == if Parent(p) in i.tree then At(p) else NoEntry {
      GuardedResolution(i.tree, p, p, follow);
    }
  }

  lemma NoOldPoint(k: Setting, i: Image, n: Path)
    requires k.Valid() && k.before.mounts <= i.mounts && IsPoint(i.mounts, k.Root() + n)
    ensures IsPoint(Extra(k, i), k.Root() + n)
  {
    var m :| m in i.mounts && m.point == k.Root() + n;
    assert i.mounts == k.before.mounts + Extra(k, i);
    NothingBelow(k.before.tree, k.Root());
    assert Upto(k.Root(), m.point) by { assert k.Root() == m.point[..|k.Root()|]; }
  }

  /** `u` is `i` with nothing but an empty directory at and below `q`. */
  ghost predicate Emptied(i: Image, u: Image, q: Path, d: Node) {
    && q in i.tree && q != [] && d.Dir?
    && forall x :: Look(u.tree, x) == if x == q then Some(d) else if Upto(q, x) then None else Look(i.tree, x)
  }

  lemma EmptiedGrows(k: Setting, i: Image, u: Image, q: Path, d: Node)
    requires k.Valid() && Grown(k, i) && Emptied(i, u, q, d) && Above(k.Root(), q) && k.before.mounts <= u.mounts
    ensures Grown(k, u)
  {
    NothingBelow(k.before.tree, k.Root());
    forall x | x in k.before.tree ensures Look(u.tree, x) == Look(i.tree, x) {
      if Upto(q, x) { UptoUpto(k.Root(), q, x); }
    }
    assert Look(u.tree, k.Root()) == Look(i.tree, k.Root());
    assert Look(u.tree, []) == Look(i.tree, []);
    forall x | x in u.tree && x != [] ensures Parent(x) in u.tree && u.tree[Parent(x)].Dir? {
      assert Look(u.tree, x).Some?;
      PrefixOfParent(x, q);
      assert x in i.tree && Parent(x) in i.tree;
      assert !Upto(q, Parent(x)) || x != q;
      assert Look(u.tree, Parent(x)) == Look(i.tree, Parent(x));
    }
  }

  lemma EmptiedNodes(k: Setting, i: Image, u: Image, q: Path, d: Node)
    requires k.BothAccepted() && k.before.mounts <= i.mounts && k.before.mounts <= u.mounts
    requires NodesTidy(k, i) && Emptied(i, u, q, d) && Above(k.Root(), q)
    requires forall m | m in Extra(k, i) && !Upto(q, m.point) :: m in Extra(k, u)
    ensures NodesTidy(k, u)
  {
    forall x | x in u.tree
      ensures x in k.before.tree || Upto(k.Root(), x)
      ensures Above(k.Root(), x) ==>
                (IsName(k, x) && Parent(x) == k.Root() && u.tree[x].Dir?) || InMount(Extra(k, u), x)
    {
      assert Look(u.tree, x).Some? && x in i.tree;
      if Above(k.Root(), x) && InMount(Extra(k, i), x) {
        var m :| m in Extra(k, i) && Above(m.point, x);
        if Upto(q, m.point) { UptoUpto(q, m.point, x); }
        assert m in Extra(k, u);
      } else if x != q {
        assert Look(u.tree, x) == Look(i.tree, x);
      }
    }
  }

  lemma EmptiedWays(k: Setting, i: Image, u: Image, q: Path, d: Node)
    requires k.BothAccepted() && WaysTidy(k, i) && Emptied(i, u, q, d)
    ensures WaysTidy(k, u)
  {
    forall n | n in k.Names() ensures Unlinked(u.tree, k.Root() + n) {
      assert Unlinked(i.tree, k.Root() + n);
      forall x | x in u.tree ensures u.tree[x] == d || (x in i.tree && u.tree[x] == i.tree[x]) {
        assert Look(u.tree, x).Some?;
      }
    }
  }

  lemma EmptiedMounts(k: Setting, i: Image, u: Image, q: Path, d: Node)
    requires k.BothAccepted() && k.before.mounts <= i.mounts && k.before.mounts <= u.mounts
    requires MountsTidy(k, i) && Emptied(i, u, q, d) && Ordered(Extra(k, u))
    requires forall m | m in Extra(k, u) :: m in Extra(k, i) && !Upto(q, m.point)
    ensures MountsTidy(k, u)
  {
    forall m | m in Extra(k, u) ensures m.point in u.tree {
      assert Look(u.tree, m.point) == Look(i.tree, m.point);
    }
  }

  lemma LeafLeft(t: Tree, q: Path, hidden: Tree, d: Node)
    requires hidden.Keys == {q} && hidden[q] == d
    ensures forall x :: Look(RemoveTree(t, q) + hidden, x) ==
                        if x == q then Some(d) else if Upto(q, x) then None else Look(t, x)
  {
  }

  lemma DetachedEmpties(k: Setting, i: Image, q: Path) returns (d: Node)
    requires k.BothAccepted() && k.before.mounts <= i.mounts && MountsTidy(k, i) && IsPoint(Extra(k, i), q)
    ensures var u := Detached(i, q);
      && k.before.mounts <= u.mounts && Emptied(i, u, q, d) && Ordered(Extra(k, u)) && Above(k.Root(), q)
      && forall m :: m in Extra(k, u) <==> m in Extra(k, i) && !Upto(q, m.point)
  {
    var extra := Extra(k, i);
    assert i == Image(i.tree, k.before.mounts + extra);
    var e := DetachedIs(k.before.mounts, extra, i.tree, q);
    WithoutKeeps(extra, e, q);
    assert extra[e] in extra;
    d := extra[e].hidden[q];
    LeafLeft(i.tree, q, extra[e].hidden, d);
    assert Extra(k, Detached(i, q)) == Without(extra, e, q);
  }

  lemma DetachedTidy(k: Setting, i: Image, q: Path)
    requires k.Valid() && Grown(k, i) && k.BothAccepted() && Tidy(k, i) && IsPoint(Extra(k, i), q)
    ensures var u := Detached(i, q);
      Grown(k, u) && Tidy(k, u) && forall m | m in Extra(k, u) :: m in Extra(k, i) && m.point != q
  {
    var u := Detached(i, q);
    var d := DetachedEmpties(k, i, q);
    EmptiedGrows(k, i, u, q, d);
    EmptiedNodes(k, i, u, q, d);
    EmptiedWays(k, i, u, q, d);
    EmptiedMounts(k, i, u, q, d);
  }

  /** Unmounting one of the paths of the cleanup. */
  lemma UnmountedTidy(k: Setting, i: Image, n: Path)
    requires k.Valid() && Grown(k, i) && k.BothAccepted() && !k.Linked() && Tidy(k, i) && n in k.Names()
    ensures var u := Unmounted(i, k.Temp() + n);
      && Grown(k, u) && Tidy(k, u)
      && (forall m | m in Extra(k, u) :: m in Extra(k, i) && m.point != k.Root() + n)
  {
    var p := k.Root() + n;
    PointResolves(k, i, n);
    if IsPoint(Extra(k, i), p) {
      var m :| m in Extra(k, i) && m.point == p;
      assert m in i.mounts && IsPoint(i.mounts, p);
      assert p in i.tree && p != [] && Parent(p) in i.tree;
      DetachedTidy(k, i, p);
    } else {
      if IsPoint(i.mounts, p) { NoOldPoint(k, i, n); }
      assert Unmounted(i, k.Temp() + n) == i;
    }
  }

  // ---- Removing the directories ----

  /** Only the workspace and empty mount points are left; each of those has
      one of the names in `left`. */
  ghost predicate Bare(k: Setting, i: Image, left: seq<Path>) {
    && WellFormed(i.tree) && Within(k.before.tree, i.tree) && i.mounts == k.before.mounts
    && k.Root() in i.tree && i.tree[k.Root()].Dir?
    && forall x | x in i.tree ::
         x in k.before.tree || x == k.Root()
         || (Parent(x) == k.Root() && x != [] && i.tree[x].Dir? && exists n :: n in left && x == k.Root() + n)
  }

  lemma UnmountedIsBare(k: Setting, i: Image)
    requires Grown(k, i) && k.BothAccepted() && NodesTidy(k, i) && Extra(k, i) == []
    ensures Bare(k, i, k.Names())
  {
    assert i.mounts == k.before.mounts + Extra(k, i);
    forall x | x in i.tree && x !in k.before.tree && x != k.Root()
      ensures IsName(k, x) && Parent(x) == k.Root() && i.tree[x].Dir?
    {
      assert Upto(k.Root(), x) && Above(k.Root(), x);
    }
  }

  lemma StartIsBare(k: Setting, left: seq<Path>)
    requires k.Valid()
    ensures Bare(k, k.Start(), left)
  {
    StartGrows(k);
  }

  /** Everything above a workspace path in a bare state is a directory. */
  lemma BareResolves(k: Setting, i: Image, left: seq<Path>, n: Path)
    requires k.Valid() && Bare(k, i, left) && Plain(n)
    ensures var p := k.Root() + n;
      Resolve(i.tree, k.Temp() + n, false) == if Parent(p) in i.tree then At(p) else NoEntry
  {
    var t, p := i.tree, k.Root() + n;
    forall x | x in t && Above(k.Root(), x) ensures t[x].Dir? {
      NothingBelow(k.before.tree, k.Root());
      assert x !in k.before.tree by { assert Upto(k.Root(), x); }
    }
    DirsAreUnlinked(t, k.Root(), n);
    TempResolves(k, t, n, false);
  }

  lemma PointIsNotMounted(k: Setting, n: Path)
    requires k.Valid()
    ensures k.Root() + n !in k.before.tree && !IsPoint(k.before.mounts, k.Root() + n)
  {
    NothingBelow(k.before.tree, k.Root());
    assert Upto(k.Root(), k.Root() + n);
  }

  /** In a bare state a mount point is empty. */
  lemma PointIsEmpty(k: Setting, i: Image, left: seq<Path>, n: Path)
    requires k.Valid() && Bare(k, i, left) && n != []
    ensures forall x | x in i.tree :: !Above(k.Root() + n, x)
  {
    var p := k.Root() + n;
    NothingBelow(k.before.tree, k.Root());
    forall x | x in i.tree && x in k.before.tree ensures !Above(p, x) {
      if Above(p, x) { UptoUpto(k.Root(), p, x); }
    }
  }

  /** Removing one more directory of the run. */
  lemma RemovedPoint(k: Setting, i: Image, left: seq<Path>, n: Path)
    requires k.Valid() && Bare(k, i, left) && Plain(n) && n != []
    ensures Removed(i, k.Temp() + n) == i.tree - {k.Root() + n}
  {
    var p := k.Root() + n;
    BareResolves(k, i, left, n);
    PointIsNotMounted(k, n);
    PointIsEmpty(k, i, left, n);
    if p in i.tree { assert p != [] && Parent(p) in i.tree; }
  }

  lemma LeafGone(t: Tree, p: Path)
    requires WellFormed(t) && p != [] && forall x | x in t :: !Above(p, x)
    ensures WellFormed(t - {p})
  {
    var u := t - {p};
    forall x | x in u && x != [] ensures Parent(x) in u && u[Parent(x)].Dir? {
      assert x in t;
      PrefixOfParent(x, p);
    }
  }

  /** What was under one of the names, and not under `n`, is under the others. */
  lemma OtherName(root: Path, left: seq<Path>, n: Path, x: Path)
    requires x != root + n && exists m :: m in [n] + left && x == root + m
    ensures exists m :: m in left && x == root + m
  {
    var m :| m in [n] + left && x == root + m;
    assert m != n && m in left;
  }

  /** Removing a mount point's directory. */
  lemma PointRemoved(k: Setting, i: Image, left: seq<Path>, n: Path)
    requires k.Valid() && Bare(k, i, [n] + left) && Plain(n) && n != []
    ensures Bare(k, i.(tree := Removed(i, k.Temp() + n)), left)
  {
    var t, p := i.tree, k.Root() + n;
    RemovedPoint(k, i, [n] + left, n);
    PointIsEmpty(k, i, [n] + left, n);
    PointIsNotMounted(k, n);
    LeafGone(t, p);
    forall x | x in t - {p} && x !in k.before.tree && x != k.Root()
      ensures Parent(x) == k.Root() && x != [] && t[x].Dir? && exists m :: m in left && x == k.Root() + m
    {
      assert x in t;
      OtherName(k.Root(), left, n, x);
    }
  }

  /** An empty workspace is all that is left in the end. */
  lemma OnlyTheWorkspace(k: Setting, i: Image, left: seq<Path>)
    requires k.Valid() && Bare(k, i, left)
    requires left == [] || forall x | x in i.tree :: !Above(k.Root(), x)
    ensures i.tree - {k.Root()} == k.before.tree && forall x | x in i.tree :: !Above(k.Root(), x)
  {
    var t, p := i.tree, k.Root();
    PointIsNotMounted(k, []);
    assert p + [] == p;
    NothingBelow(k.before.tree, p);
    forall x | x in t ensures x in k.before.tree || x == p {
      if Parent(x) == p && x != [] { PrefixOfParent(x, p); }
    }
  }

  /** Removing the workspace itself, once it is empty. */
  lemma WorkspaceRemoved(k: Setting, i: Image, left: seq<Path>)
    requires k.Valid() && Bare(k, i, left)
    ensures Removed(i, k.Temp()) == i.tree || Removed(i, k.Temp()) == k.before.tree
    ensures left == [] ==> Removed(i, k.Temp()) == k.before.tree
  {
    var p := k.Root();
    assert k.Temp() + [] == k.Temp() && p + [] == p;
    BareResolves(k, i, left, []);
    PointIsNotMounted(k, []);
    assert Parent(p) == k.place && k.place in i.tree;
    if left == [] || forall x | x in i.tree :: !Above(p, x) {
      OnlyTheWorkspace(k, i, left);
    }
  }

  /** Once it is gone, removing finds nothing. */
  lemma NothingToRemove(k: Setting, n: Path)
    requires k.Valid() && Plain(n)
    ensures Removed(k.before, k.Temp() + n) == k.before.tree
  {
    var t, p := k.before.tree, k.Root() + n;
    PointIsNotMounted(k, n);
    NothingBelow(t, k.Root());
    AllAncestors(t);
    forall x | x in t && Above(x, p) ensures t[x].Dir? {
      if |x| <= |k.place| {
        assert x == p[..|x|] == k.place[..|x|];
        assert x == k.place || Above(x, k.place);
      } else {
        PrefixesCompare(p, k.Root(), x);
      }
    }
    TempResolves(k, t, n, false);
  }

  /** One round of the removal loop, whatever the name. */
  lemma NameRemoved(k: Setting, i: Image, left: seq<Path>, n: Path)
    requires k.Valid() && Plain(n) && (Bare(k, i, [n] + left) || i == k.before)
    ensures var u := i.(tree := Removed(i, k.Temp() + n)); Bare(k, u, left) || u == k.before
  {
    if i == k.before {
      NothingToRemove(k, n);
    } else if n == [] {
      assert k.Temp() + n == k.Temp() && k.Root() + n == k.Root();
      WorkspaceRemoved(k, i, [n] + left);
      forall x | x in i.tree && x !in k.before.tree && x != k.Root()
        ensures exists m :: m in left && x == k.Root() + m
      {
        OtherName(k.Root(), left, n, x);
      }
    } else {
      PointRemoved(k, i, left, n);
    }
  }

  /** With nothing mounted there is nothing to unmount. */
  lemma StartUnmounted(k: Setting, n: Path)
    requires k.Valid() && Plain(n)
    ensures Unmounted(k.Start(), k.Temp() + n) == k.Start()
  {
    PointIsNotMounted(k, n);
    if n == [] {
      StartGrows(k);
      AllAncestors(k.Start().tree);
      assert Parent(k.Root()) == k.place && k.Root() + [] == k.Root();
      TempResolves(k, k.Start().tree, n, true);
    } else {
      MissingInStart(k, n, true);
    }
  }
}
