/** The mount transaction of one sync run and its deferred cleanup. */
module MountTransaction {
  import Disk
  import Guards
  import opened Lexical
  import opened Namespace
  import OpenBeneath
  import opened PathGuard
  import opened Teardown
  import opened Tree
  import opened Workspace

  // ---- System calls ----

  lemma ParentOfChild(d: Path, name: Name)
    ensures d + [name] != [] && Parent(d + [name]) == d
  {
  }

  /** Where a directory would be made, if its place is free. */
  function MkdirAt(t: Tree, path: Path): (r: Option<Path>)
    requires path != []
    ensures r.Some? ==> Vacant(t, r.value)
  {
    match Resolve(t, Parent(path), true)
    case At(d) =>
      var q := d + [path[|path| - 1]];
      ParentOfChild(d, path[|path| - 1]);
      if d in t && t[d].Dir? && q !in t then Some(q) else None
    case _ => None
  }

  /** As long as what was there stays, the path leads to the new directory. */
  lemma ResolvesToMade(t: Tree, u: Tree, path: Path, q: Path)
    requires path != [] && Plain(path) && MkdirAt(t, path) == Some(q) && Within(t, u) && q in u && u[q].Dir?
    ensures Resolve(u, path, true) == At(q)
  {
    var d := Resolve(t, Parent(path), true).path;
    var last := [path[|path| - 1]];
    WalkKeeps(t, u, [], Parent(path), true, MAX_LINKS, d);
    var left := WalkOn(u, [], Parent(path), last, true, MAX_LINKS, d);
    assert Parent(path) + last == path;
    assert last[1..] == [] && Walk(u, q, [], true, left) == At(q);
  }

  function MadeAt(i: Image, path: Path): Image
    requires path != [] && MkdirAt(i.tree, path).Some?
  {
    Added(i, MkdirAt(i.tree, path).value)
  }

  function MountedOn(i: Image, path: Path, content: Volume): Image
    requires path != [] && MkdirAt(i.tree, path).Some?
  {
    Cover(MadeAt(i, path), MkdirAt(i.tree, path).value, content)
  }

  lemma AcceptedLeadsDown(root: Path, name: string)
    ensures Accepted(name) ==> NeverAbove(name) && Follow(root, Components(name)) == root + Inside(name)
  {
    LocalIff(name);
    if name == "" || name == "." {
      assert name == "." ==> name[1..] == "" && Components(name) == ["."] && ["."][..0] == [];
      assert root + [] == root;
    } else if IsLocal(name) {
      LocalLeadsDown(root, name);
    }
  }

  /** A subpath can be opened below a directory, making what is missing if asked to. */
  ghost predicate CanOpen(t: Tree, root: Path, subpath: string, create: bool) {
    && IsLocal(OpenBeneath.Subpath(subpath))
    && OpenBeneath.Openable(t, root, Clean(OpenBeneath.Subpath(subpath)), create)
  }

  /** That is a matter of what is seen below the directory. */
  lemma OpensAsSeen(t: Tree, root: Path, subpath: string, create: bool)
    ensures CanOpen(t, root, subpath, create) <==> CanOpen(Seen(t, root), [], subpath, create)
  {
    var names := Clean(OpenBeneath.Subpath(subpath));
    SeenLook(t, root, []);
    assert root + [] == root;
    forall i | 1 <= i <= |names| ensures Look(Seen(t, root), [] + names[..i]) == Look(t, root + names[..i]) {
      assert [] + names[..i] == names[..i];
      SeenLook(t, root, names[..i]);
    }
  }

  /** How far down directories were made. */
  lemma MadePart(t: Tree, u: Tree, root: Path, names: Path, whole: bool) returns (reached: Path)
    requires if whole then u == MakeDirs(t, root + names, OpenBeneath.PRIVATE)
             else OpenBeneath.PartlyMade(t, u, root, names)
    ensures u == MakeDirs(t, root + reached, OpenBeneath.PRIVATE)
  {
    if whole {
      reached := names;
    } else {
      var n :| 0 <= n <= |names| && u == MakeDirs(t, root + names[..n], OpenBeneath.PRIVATE);
      reached := names[..n];
    }
  }

  class Kernel {
    var tree: Tree
    var mounts: seq<Mounted>
    /** How often a call failed that nothing spoke against, or somebody else changed
        the mounted file systems. */
    ghost var incidents: nat

    constructor (tree: Tree, mounts: seq<Mounted>)
      ensures this.tree == tree && this.mounts == mounts
    {
      this.tree, this.mounts, incidents := tree, mounts, 0;
    }

    function Now(): Image
      reads this`tree, this`mounts
    {
      Image(tree, mounts)
    }

    ghost predicate Valid()
      reads this`tree, this`mounts
    {
      WellFormed(tree) && forall m | m in mounts :: m.point in tree
    }

    /** Whether a call works that nothing speaks against. */
    method Granted() returns (ok: bool)
      modifies this`incidents
      ensures incidents == old(incidents) + if ok then 0 else 1
    {
      ok := *;
      if !ok { incidents := incidents + 1; }
    }

    method Mkdir(path: Path) returns (ok: bool)
      requires path != []
      modifies this`tree, this`incidents
      ensures incidents >= old(incidents)
      ensures ok ==> MkdirAt(old(tree), path).Some?
      ensures incidents == old(incidents) && MkdirAt(old(tree), path).Some? ==> ok
      ensures tree == if ok then old(tree)[MkdirAt(old(tree), path).value := POINT_DIR] else old(tree)
    {
      ok := Granted();
      if ok {
        match MkdirAt(tree, path) {
          case Some(q) => tree := tree[q := POINT_DIR];
          case None => ok := false;
        }
      }
    }

    /** Mounts a file system with the given tree on an existing directory. */
    method Mount(path: Path, content: Volume) returns (ok: bool)
      modifies this
      ensures incidents >= old(incidents)
      ensures var spot := Resolve(old(tree), path, true);
        incidents == old(incidents) && spot.At? && IsDirectory(old(tree), spot.path) ==> ok
      ensures ok ==> Resolve(old(tree), path, true).At?
      ensures Now() == if ok then Cover(old(Now()), Resolve(old(tree), path, true).path, content) else old(Now())
    {
      ok := Granted();
      if ok {
        match Resolve(tree, path, true) {
          case At(q) =>
            if q in tree && tree[q].Dir? {
              mounts := mounts + [Mounted(q, content.origin, Under(tree, q))];
              tree := Graft(tree, q, content.tree);
            } else {
              ok := false;
            }
          case _ => ok := false;
        }
      }
    }

    /** A new directory, and a mount on it. */
    method MakeAndMount(path: Path, content: Volume) returns (made: bool, ok: bool)
      requires WellFormed(tree) && path != [] && Plain(path)
      modifies this
      ensures incidents >= old(incidents)
      ensures incidents == old(incidents) && MkdirAt(old(tree), path).Some? ==> ok
      ensures ok ==> made
      ensures made ==> MkdirAt(old(tree), path).Some?
      ensures Now() == if ok then MountedOn(old(Now()), path, content)
                       else if made then MadeAt(old(Now()), path) else old(Now())
    {
      ghost var i := Now();
      ok := false;
      made := Mkdir(path);
      if made {
        LeadsToMade(i, path);
        ok := Mount(path, content);
      }
    }

    /** Opens a directory below the one that `path` leads to; `reached` is how
        far down the missing directories were made from `start`. */
    method OpenDirBeneath(path: Path, subpath: string, create: bool)
        returns (dir: Option<Path>, ghost start: Path, ghost reached: Path)
      requires WellFormed(tree)
      modifies this`tree, this`incidents
      ensures WellFormed(tree) && incidents >= old(incidents)
      ensures incidents == old(incidents) && Resolve(old(tree), path, true).At? ==>
                (dir.Some? <==> CanOpen(old(tree), Resolve(old(tree), path, true).path, subpath, create))
      ensures tree != old(tree) ==>
                && create && Resolve(old(tree), path, true) == At(start) && IsDirectory(old(tree), start)
                && tree == MakeDirs(old(tree), start + reached, OpenBeneath.PRIVATE)
      ensures dir.Some? ==>
                && Resolve(old(tree), path, true).At? && IsLocal(OpenBeneath.Subpath(subpath))
                && dir.value == Resolve(old(tree), path, true).path + Clean(OpenBeneath.Subpath(subpath))
                && dir.value == Follow(Resolve(old(tree), path, true).path, Components(OpenBeneath.Subpath(subpath)))
                && IsDirectory(tree, dir.value)
    {
      dir, start, reached := None, [], [];
      match Resolve(tree, path, true) {
        case At(root) =>
          var healthy := Granted();
          var process := new OpenBeneath.Process(healthy, tree, map[]);
          var r := process.OpenDirBeneath(root, subpath, create);
          start := root;
          ghost var names := Clean(OpenBeneath.Subpath(subpath));
          if process.tree != tree {
            reached := MadePart(tree, process.tree, root, names, r.Opened?);
          }
          tree := process.tree;
          if r.Opened? {
            LocalLeadsDown(root, OpenBeneath.Subpath(subpath));
            dir := Some(process.open[r.fd]);
          }
        case _ =>
      }
    }

    /** Lazy; a path that is no mount point is not an error. */
    method Unmount(path: Path)
      modifies this`tree, this`mounts
      ensures Now() == Unmounted(old(Now()), path)
    {
      var u := Unmounted(Now(), path);
      tree, mounts := u.tree, u.mounts;
    }

    method Remove(path: Path)
      modifies this`tree
      ensures tree == Removed(old(Now()), path)
    {
      tree := Removed(Now(), path);
    }

    /** The walk over the components of a workspace path. Unless `steady`, a
        call may fail by itself. */
    method SafeWorkspacePath(root: Path, name: string, steady: bool) returns (r: Option<Path>)
      modifies this`incidents
      ensures incidents >= old(incidents) && (steady ==> incidents == old(incidents))
      ensures r.Some? ==> Safe(tree, root, name) && r.value == root + Inside(name)
      ensures r.Some? ==> NeverAbove(name) && r.value == Follow(root, Components(name))
      ensures incidents == old(incidents) && Safe(tree, root, name) ==> r.Some?
    {
      AcceptedLeadsDown(root, name);
      if name == "" || name == "." {
        assert root + [] == root;
        return Some(root);
      }
      if !IsLocal(name) {
        return None;
      }
      var parts := Clean(name);
      for i := 0 to |parts|
        invariant forall j | 1 <= j <= i :: Passes(tree, root, root + parts[..j])
        invariant incidents == old(incidents)
      {
        var current := root + parts[..i + 1];
        if !steady {
          var ok := Granted();
          if !ok {
            return None;
          }
        }
        match Resolve(tree, current, false) {
          case At(q) =>
            if q !in tree {
              continue;
            }
            if tree[q].Link? {
              assert !Passes(tree, root, root + Inside(name)[..i + 1]);
              return None;
            }
            var resolved := Resolve(tree, current, true);
            if !resolved.At? || resolved.path !in tree || !Upto(root, resolved.path) {
              assert !Passes(tree, root, root + Inside(name)[..i + 1]);
              return None;
            }
          case NoEntry => continue;
          case _ =>
            assert !Passes(tree, root, root + Inside(name)[..i + 1]);
            return None;
        }
      }
      return Some(root + parts);
    }
  }

  // ---- Facts the run needs about its own paths ----

  lemma StartPlace(k: Setting)
    requires k.Valid() && k.BothAccepted()
    ensures var r := MkdirAt(k.Start().tree, k.Temp() + k.S());
      r.Some? ==> |k.S()| == 1 && r.value == k.Root() + k.S()
  {
    var t, s := k.Start().tree, k.S();
    StartGrows(k);
    if s == [] {
      RootIsTaken(k, t);
    } else if |s| == 1 {
      OneNamePlace(k, k.Start(), s[0]);
      assert s == [s[0]];
    } else {
      DeepNameFails(k, s);
    }
  }

  lemma RootIsTaken(k: Setting, t: Tree)
    requires k.Valid() && Grown(k, k.Start()) && t == k.Start().tree
    ensures MkdirAt(t, k.Temp() + []).None?
  {
    ParentResolves(k, t);
    assert k.Temp() + [] == k.Temp() && Parent(k.Temp()) == k.parent && k.Temp()[|k.parent|] == k.name;
  }

  /** A single name in the workspace can be made exactly when it is not there. */
  lemma OneNamePlace(k: Setting, i: Image, x: Name)
    requires k.Valid() && Grown(k, i)
    ensures MkdirAt(i.tree, k.Temp() + [x]) == if k.Root() + [x] in i.tree then None else Some(k.Root() + [x])
  {
    ParentOfChild(k.Temp(), x);
    AllAncestors(i.tree);
    assert Parent(k.Root()) == k.place && k.Root() + [] == k.Root() && k.Temp() + [] == k.Temp();
    TempResolves(k, i.tree, [], true);
  }

  lemma DeepNameFails(k: Setting, s: Path)
    requires k.Valid() && k.BothAccepted() && Grown(k, k.Start()) && s == k.S() && |s| > 1
    ensures MkdirAt(k.Start().tree, k.Temp() + s).None?
  {
    var path := k.Temp() + s;
    InsideIsPlain(k.source);
    assert Parent(path) == k.Temp() + s[..|s| - 1];
    MissingInStart(k, s[..|s| - 1], true);
  }

  /** Neither link nor file disturbs the run. */
  ghost predicate Undisturbed(k: Setting, mounted: bool)
    requires k.BothAccepted()
  {
    !k.Linked() && !(mounted && k.Hindered())
  }

  lemma PlaceIsPoint(k: Setting, i: Image, n: Path)
    requires k.Valid() && Grown(k, i) && k.BothAccepted() && !k.Linked() && WaysTidy(k, i) && n in k.Names()
    ensures var r := MkdirAt(i.tree, k.Temp() + n);
      r.Some? ==> n != [] && r.value == k.Root() + n && Above(k.Root(), r.value)
  {
    var t, p := i.tree, k.Root() + n;
    NotLinked(k);
    NamesArePlain(k, n);
    ParentResolves(k, t);
    if n == [] {
      assert Parent(p) == k.parent && p[|p| - 1] == k.name;
    } else {
      assert Plain(p) && p != [] && Upto(Parent(p), p) && Parent(p) + [p[|p| - 1]] == p;
      GuardedResolution(t, p, Parent(p), true);
      assert k.Root() == p[..|k.Root()|];
    }
  }

  /** No other mount point is named below a new one. */
  lemma NothingNamedBelow(k: Setting, t: Tree, n: Path, m: Path)
    requires k.BothAccepted() && |k.S()| == 1 && WellFormed(t) && n in k.Names() && m in k.Names() && n != []
    requires k.Root() + n !in t && (n == k.D() || k.Root() + k.D() in t)
    ensures !Above(k.Root() + n, k.Root() + m)
  {
    if Above(k.Root() + n, k.Root() + m) && m == k.D() {
      assert n != k.D();
      AncestorsAreDirs(t, k.Root() + m, k.Root() + n);
    }
  }

  lemma PointReady(k: Setting, i: Image, mounted: bool, q: Path)
    requires Stage(k, i, true, mounted) && Vacant(i.tree, q)
    requires !k.Linked() && !(mounted && k.Hindered()) ==> Live(k, i) && IsName(k, q) && Above(k.Root(), q)
    ensures Stage(k, Added(i, q), true, mounted) && Ready(k, Added(i, q), q)
  {
    PointAdded(k, i, mounted, q);
    NothingBelow(i.tree, q);
    assert Upto(q, k.Root() + k.S()) || !Above(q, k.Root() + k.S());
  }

  /** The path of a directory just made leads to it, */
  lemma LeadsToMade(i: Image, path: Path)
    requires path != [] && Plain(path) && MkdirAt(i.tree, path).Some?
    ensures var q := MkdirAt(i.tree, path).value;
      q in Added(i, q).tree && Added(i, q).tree[q].Dir? && Resolve(Added(i, q).tree, path, true) == At(q)
  {
    ResolvesToMade(i.tree, Added(i, MkdirAt(i.tree, path).value).tree, path, MkdirAt(i.tree, path).value);
  }

  lemma CoverKeepsOld(i: Image, q: Path, content: Volume)
    requires WellFormed(i.tree) && WellFormed(content.tree) && q !in i.tree
    ensures var c := Cover(Added(i, q), q, content); Within(i.tree, c.tree) && q in c.tree && c.tree[q].Dir?
  {
    var c := Cover(Added(i, q), q, content);
    NothingBelow(i.tree, q);
    CoveredLook(Added(i, q), q, content);
    assert q[|q|..] == [] && Look(c.tree, q) == Look(content.tree, []);
    assert forall x | x in i.tree :: Look(c.tree, x) == Look(i.tree, x);
  }

  /** and still does once something is mounted there. */
  lemma LeadsToMounted(i: Image, path: Path, content: Volume)
    requires WellFormed(i.tree) && WellFormed(content.tree) && path != [] && Plain(path) && MkdirAt(i.tree, path).Some?
    ensures var q := MkdirAt(i.tree, path).value;
      Resolve(Cover(Added(i, q), q, content).tree, path, true) == At(q)
  {
    var q := MkdirAt(i.tree, path).value;
    CoverKeepsOld(i, q, content);
    ResolvesToMade(i.tree, Cover(Added(i, q), q, content).tree, path, q);
  }

  /** A directory made and mounted on keeps the stage. */
  lemma PointMounted(k: Setting, i: Image, mounted: bool, n: Path, content: Volume)
    requires Stage(k, i, true, mounted) && n in k.Names() && WellFormed(content.tree)
    requires Undisturbed(k, mounted) ==> Live(k, i) && (n == k.D() || k.Root() + k.D() in i.tree)
    requires k.Temp() + n != [] && MkdirAt(i.tree, k.Temp() + n).Some?
    ensures var q := MkdirAt(i.tree, k.Temp() + n).value; var a := Added(i, q);
      Stage(k, a, true, mounted) && Stage(k, Cover(a, q, content), true, mounted)
  {
    var q := MkdirAt(i.tree, k.Temp() + n).value;
    var a := Added(i, q);
    if Undisturbed(k, mounted) {
      PlaceIsPoint(k, i, n);
      forall m | m in k.Names() ensures !Above(q, k.Root() + m) { NothingNamedBelow(k, i.tree, n, m); }
      assert !IsPoint(Extra(k, a), q) by { assert Extra(k, a) == Extra(k, i); }
    }
    PointReady(k, i, mounted, q);
    PointCovered(k, a, mounted, q, content, false);
  }

  lemma MorePoints(mounts: seq<Mounted>, m: Mounted, x: Path)
    requires x == m.point || IsPoint(mounts, x)
    ensures IsPoint(mounts + [m], x)
  {
    if x == m.point {
      assert m in mounts + [m];
    } else {
      var l :| l in mounts && l.point == x;
      assert l in mounts + [m];
    }
  }

  lemma MountedLives(k: Setting, i: Image, n: Path, content: Volume)
    requires k.BothAccepted() && Grown(k, i) && Live(k, i) && n != [] && k.Root() + n !in i.tree
    ensures var q := k.Root() + n; var c := Cover(Added(i, q), q, content);
      k.before.mounts <= c.mounts && Live(k, c)
  {
    var q := k.Root() + n;
    var c := Cover(Added(i, q), q, content);
    var more := Mounted(q, content.origin, Under(Added(i, q).tree, q));
    ExtraMore(k.before.mounts, i.mounts, more);
    CoverLook(i, q, content);
    AllMoreLive(k.Root(), q, i.tree, c.tree, Extra(k, i), more);
  }

  lemma ExtraMore(before: seq<Mounted>, mounts: seq<Mounted>, more: Mounted)
    requires before <= mounts
    ensures before <= mounts + [more] && (mounts + [more])[|before|..] == mounts[|before|..] + [more]
  {
  }

  lemma CoverLook(i: Image, q: Path, content: Volume)
    requires WellFormed(i.tree) && q !in i.tree
    ensures forall x :: Look(Cover(Added(i, q), q, content).tree, x) == Look(i.tree, x) || Upto(q, x)
  {
    NothingBelow(i.tree, q);
    CoveredLook(Added(i, q), q, content);
    forall x ensures Look(Cover(Added(i, q), q, content).tree, x) == Look(i.tree, x) || Upto(q, x) {
      if x != q { assert Look(Added(i, q).tree, x) == Look(i.tree, x); }
    }
  }

  lemma AllMoreLive(root: Path, q: Path, t: Tree, u: Tree, extra: seq<Mounted>, more: Mounted)
    requires |q| > |root| && more.point == q
    requires forall x :: Look(u, x) == Look(t, x) || Upto(q, x)
    requires forall x | x in t && x != [] && Parent(x) == root :: IsPoint(extra, x)
    ensures forall x | x in u && x != [] && Parent(x) == root :: IsPoint(extra + [more], x)
  {
    forall x | x in u && x != [] && Parent(x) == root ensures IsPoint(extra + [more], x) {
      OneMoreLives(root, q, t, u, extra, more, x);
    }
  }

  lemma OneMoreLives(root: Path, q: Path, t: Tree, u: Tree, extra: seq<Mounted>, more: Mounted, x: Path)
    requires |q| > |root| && more.point == q && x != [] && Parent(x) == root && x in u
    requires Look(u, x) == Look(t, x) || Upto(q, x)
    requires x in t ==> IsPoint(extra, x)
    ensures IsPoint(extra + [more], x)
  {
    assert |x| == |root| + 1;
    if x != q {
      assert !Upto(q, x);
    }
    MorePoints(extra, more, x);
  }

  lemma StirredLives(k: Setting, i: Image, u: Tree)
    requires k.BothAccepted() && k.before.mounts <= i.mounts && Stirred(k, i, u) && MountsTidy(k, i) && Live(k, i)
    ensures Live(k, i.(tree := u))
    ensures IsDirectory(i.tree, k.Root() + k.D()) ==> IsDirectory(u, k.Root() + k.D())
  {
    forall x | x in u && x != [] && Parent(x) == k.Root() ensures IsPoint(Extra(k, i), x) {
      StirredLook(k, i, u, x);
      if m :| m in Extra(k, i) && Above(m.point, x) {
        assert false;
      }
    }
    StirredLook(k, i, u, k.Root() + k.D());
    assert OnTheWay(k, k.Root() + k.D()) by { assert k.D()[..|k.D()|] == k.D(); }
  }

  /** The state with the source mounted. */
  lemma SourceMounted(k: Setting)
    requires k.Valid() && k.BothAccepted() && |k.S()| == 1
    ensures var q := k.Root() + k.S(); var c := Cover(Added(k.Start(), q), q, k.content);
      && Stage(k, c, true, true) && (Undisturbed(k, true) ==> Live(k, c))
      && c.mounts == k.before.mounts + [Mounted(q, k.content.origin, Under(Added(k.Start(), q).tree, q))]
  {
    var q := k.Root() + k.S();
    var i := k.Start();
    var a := Added(i, q);
    SourceAdded(k);
    StartGrows(k);
    NothingBelow(i.tree, q);
    PointIsNotMounted(k, k.S());
    assert Above(k.Root(), q) by { assert k.Root() == q[..|k.Root()|]; }
    assert !Upto(q, k.Root());
    assert Extra(k, a) == [];
    assert IsName(k, q) by { assert k.Names()[2] == k.S(); }
    PointCovered(k, a, false, q, k.content, true);
    if Undisturbed(k, true) {
      assert Extra(k, i) == [];
      forall x | x in i.tree ensures x == [] || Parent(x) != k.Root() {
        if x != [] && Parent(x) == k.Root() { PrefixOfParent(x, k.Root()); }
      }
      assert Live(k, i);
      MountedLives(k, i, k.S(), k.content);
    }
  }

  lemma DestinationStays(k: Setting, i: Image, n: Path, content: Volume)
    requires k.BothAccepted() && |k.S()| == 1 && WellFormed(i.tree) && WellFormed(content.tree)
    requires n in k.Names() && n != [] && k.Root() + n !in i.tree
    requires n == k.D() || IsDirectory(i.tree, k.Root() + k.D())
    ensures IsDirectory(Cover(Added(i, k.Root() + n), k.Root() + n, content).tree, k.Root() + k.D())
  {
    CoverKeepsOld(i, k.Root() + n, content);
  }

  /** Unmounting right after mounting gives back the state before. */
  lemma UnmountUndoes(i: Image, path: Path, content: Volume)
    requires WellFormed(i.tree) && WellFormed(content.tree) && path != [] && Plain(path) && MkdirAt(i.tree, path).Some?
    ensures Unmounted(MountedOn(i, path, content), path) == MadeAt(i, path)
  {
    LeadsToMounted(i, path, content);
    DetachUndoesCover(MadeAt(i, path), MkdirAt(i.tree, path).value, content);
  }

  lemma SourceMade(k: Setting)
    requires k.Valid() && k.BothAccepted() && |k.S()| == 1
    requires MkdirAt(k.Start().tree, k.Temp() + k.S()) == Some(k.Root() + k.S())
    ensures var i := k.Start(); var path := k.Temp() + k.S();
      && Stage(k, MadeAt(i, path), true, false)
      && Stage(k, MountedOn(i, path, k.content), true, true)
      && (Undisturbed(k, true) ==> Live(k, MountedOn(i, path, k.content)))
  {
    SourceAdded(k);
    SourceMounted(k);
  }

  /** All that `MountSource` can end in. */
  lemma SourceOutcome(k: Setting)
    requires k.Valid() && k.BothAccepted()
    ensures var i := k.Start(); var path := k.Temp() + k.S();
      && Stage(k, i, false, false) && Plain(path) && path != []
      && (MkdirAt(i.tree, path).Some? ==>
            && Stage(k, MadeAt(i, path), true, false)
            && Stage(k, MountedOn(i, path, k.content), true, true)
            && (Undisturbed(k, true) ==> Live(k, MountedOn(i, path, k.content)))
            && MkdirAt(i.tree, path).value == k.Root() + k.S())
  {
    StartPlace(k);
    StartGrows(k);
    InsideIsPlain(k.source);
    StartIsTidy(k);
    if MkdirAt(k.Start().tree, k.Temp() + k.S()).Some? {
      SourceMade(k);
    }
  }

  lemma StartIsTidy(k: Setting)
    requires k.Valid() && k.BothAccepted()
    ensures Stage(k, k.Start(), false, false)
  {
    var t := k.Start().tree;
    StartGrows(k);
    forall n | n in k.Names() ensures Unlinked(t, k.Root() + n) {
      DirsAreUnlinked(t, k.Root(), n);
    }
  }

  /** All that mounting a further point can end in. */
  lemma PointOutcome(k: Setting, i: Image, mounted: bool, n: Path, content: Volume)
    requires Stage(k, i, true, mounted) && n in k.Names() && WellFormed(content.tree)
    requires Undisturbed(k, mounted) ==> Live(k, i) && (n == k.D() || IsDirectory(i.tree, k.Root() + k.D()))
    ensures var path := k.Temp() + n;
      && Plain(path) && path != []
      && (MkdirAt(i.tree, path).Some? ==>
            var c := MountedOn(i, path, content);
            && Stage(k, MadeAt(i, path), true, mounted) && Stage(k, c, true, mounted)
            && (Undisturbed(k, mounted) ==>
                  && Live(k, c) && IsDirectory(c.tree, k.Root() + k.D())
                  && MkdirAt(i.tree, path).value == k.Root() + n))
  {
    var path := k.Temp() + n;
    NamesArePlain(k, n);
    if MkdirAt(i.tree, path).Some? {
      PointMounted(k, i, mounted, n, content);
      if Undisturbed(k, mounted) {
        PlaceIsPoint(k, i, n);
        MountedLives(k, i, n, content);
        DestinationStays(k, i, n, content);
      }
    }
  }

  /** Right after a mount its point shows what was mounted, */
  lemma MountShows(i: Image, path: Path, content: Volume)
    requires path != [] && MkdirAt(i.tree, path).Some?
    ensures var u := MountedOn(i, path, content); var q := MkdirAt(i.tree, path).value;
      && u.mounts == i.mounts + [Mounted(q, content.origin, Under(MadeAt(i, path).tree, q))]
      && Seen(u.tree, q) == content.tree
  {
    CoverShows(MadeAt(i, path), MkdirAt(i.tree, path).value, content);
  }

  /** Nothing is new except the node `q` and what is below it. */
  ghost predicate GrownAt(t: Tree, u: Tree, q: Path) {
    && q !in t && q in u
    && (forall x | x in t :: Look(u, x) == Look(t, x))
    && (forall x | x in u :: x in t || Upto(q, x))
  }

  lemma CoverGrows(i: Image, q: Path, content: Volume)
    requires WellFormed(i.tree) && WellFormed(content.tree) && q !in i.tree
    ensures GrownAt(i.tree, Cover(Added(i, q), q, content).tree, q)
  {
    var c := Cover(Added(i, q), q, content);
    CoverKeepsOld(i, q, content);
    NothingBelow(i.tree, q);
    CoveredLook(Added(i, q), q, content);
    forall x | x in c.tree ensures x in i.tree || Upto(q, x) {
      assert Look(c.tree, x).Some?;
    }
  }

  /** and a directory elsewhere still shows what it did. */
  lemma SeenStays(t: Tree, u: Tree, dir: Path, q: Path)
    requires WellFormed(t) && dir in t && GrownAt(t, u, q) && !Upto(dir, q)
    ensures Seen(u, dir) == Seen(t, dir)
  {
    forall r ensures Look(Seen(u, dir), r) == Look(Seen(t, dir), r) {
      SeenLook(u, dir, r);
      SeenLook(t, dir, r);
      var x := dir + r;
      if x in u && x !in t {
        assert Upto(dir, x) && Upto(q, x);
        if |dir| <= |q| {
          PrefixesCompare(x, dir, q);
        } else {
          PrefixesCompare(x, q, dir);
          AncestorsAreDirs(t, dir, q);
        }
        assert false;
      }
    }
    SameLookSameTree(Seen(u, dir), Seen(t, dir));
  }

  lemma SeenBesides(root: Path, t: Tree, u: Tree, dir: Path, n: Path)
    requires WellFormed(t) && dir in t && GrownAt(t, u, root + n) && |n| == 1 && Above(root, dir)
    ensures Seen(u, dir) == Seen(t, dir) && Look(u, dir) == Look(t, dir)
  {
    assert Upto(dir, root + n) ==> dir == root + n;
    SeenStays(t, u, dir, root + n);
  }

  lemma SeenWellFormed(t: Tree, q: Path)
    requires WellFormed(t) && IsDirectory(t, q)
    ensures WellFormed(Seen(t, q))
  {
    var s := Seen(t, q);
    SeenLook(t, q, []);
    assert q + [] == q;
    forall r | r in s && r != [] ensures Parent(r) in s && s[Parent(r)].Dir? {
      SeenLook(t, q, r);
      SeenLook(t, q, Parent(r));
      assert Look(s, r).Some? && Parent(q + r) == q + Parent(r);
    }
  }

  /** A path of the workspace leads to its place while nothing disturbs. */
  lemma PointLeads(k: Setting, i: Image, mounted: bool, n: Path)
    requires Stage(k, i, true, mounted) && Undisturbed(k, mounted) && n in k.Names() && k.Root() + n in i.tree
    ensures Resolve(i.tree, k.Temp() + n, true) == At(k.Root() + n)
  {
    var p := k.Root() + n;
    NamesArePlain(k, n);
    assert Unlinked(i.tree, p);
    TempResolves(k, i.tree, n, true);
    assert p != [] && Parent(p) in i.tree;
  }

  lemma MountLeads(k: Setting, i: Image, mounted: bool, n: Path, j: nat)
    requires Stage(k, i, true, mounted) && Undisturbed(k, mounted) && n in k.Names()
    requires |k.before.mounts| <= j < |i.mounts| && i.mounts[j].point == k.Root() + n
    ensures Resolve(i.tree, k.Temp() + n, true) == At(i.mounts[j].point)
  {
    assert Extra(k, i)[j - |k.before.mounts|] == i.mounts[j];
    assert i.mounts[j] in Extra(k, i);
    PointLeads(k, i, mounted, n);
  }

  /** A directory at or below the destination's mount point. */
  ghost predicate InDestination(k: Setting, i: Image, dir: Path)
    requires k.BothAccepted() && k.before.mounts <= i.mounts
  {
    IsPoint(Extra(k, i), k.Root() + k.D()) && Upto(k.Root() + k.D(), dir)
  }

  /** A subpath leads to a directory, whatever it starts from. */
  ghost predicate LedTo(subpath: string, dir: Path) {
    && IsLocal(OpenBeneath.Subpath(subpath))
    && exists start :: dir == Follow(start, Components(OpenBeneath.Subpath(subpath)))
  }

  lemma OpenedIsBelow(k: Setting, i: Image, mounted: bool, n: Path, names: Path)
    requires Stage(k, i, true, mounted) && Undisturbed(k, mounted) && IsPoint(Extra(k, i), k.Root() + n)
    ensures Above(k.Root(), k.Root() + n + names)
    ensures n == k.D() ==> InDestination(k, i, k.Root() + n + names)
  {
    assert k.Root() == (k.Root() + n + names)[..|k.Root()|];
    if n == k.D() { BelowIsIn(k, i, k.Root() + n + names, names); }
  }

  lemma BelowIsIn(k: Setting, i: Image, dir: Path, names: Path)
    requires k.BothAccepted() && k.before.mounts <= i.mounts && IsPoint(Extra(k, i), k.Root() + k.D())
    requires dir == k.Root() + k.D() + names
    ensures InDestination(k, i, dir)
  {
  }

  lemma BelowPoint(k: Setting, i: Image, x: Path)
    requires k.BothAccepted() && k.before.mounts <= i.mounts
    requires IsPoint(Extra(k, i), k.Root() + k.D()) && Above(k.Root() + k.D(), x)
    ensures !OnTheWay(k, x) && InMount(Extra(k, i), x)
  {
    var m :| m in Extra(k, i) && m.point == k.Root() + k.D();
    assert Above(m.point, x);
    assert forall n | 0 <= n <= |k.D()| :: |k.Root() + k.D()[..n]| < |x|;
  }

  lemma AttributesAreStirred(k: Setting, i: Image, u: Tree, dir: Path)
    requires k.BothAccepted() && k.before.mounts <= i.mounts && WellFormed(i.tree) && InDestination(k, i, dir)
    requires IsDirectory(i.tree, dir) && IsDirectory(u, dir) && u == i.tree[dir := u[dir]]
    ensures Stirred(k, i, u)
  {
    if dir != k.Root() + k.D() {
      BelowPoint(k, i, dir);
    }
    assert forall x | x != dir :: Look(u, x) == Look(i.tree, x);
  }

  /** Directories made below the destination's mount point are inside a mount; if
      something disturbs, they leave what counts as it is wherever they are. */
  lemma MakingStays(k: Setting, i: Image, mounted: bool, u: Tree, d: Path, made: Path)
    requires Stage(k, i, true, mounted) && WellFormed(u) && IsDirectory(i.tree, d)
    requires u == MakeDirs(i.tree, d + made, OpenBeneath.PRIVATE)
    requires Undisturbed(k, mounted) ==> d == k.Root() + k.D() && IsPoint(Extra(k, i), d) && Live(k, i)
    ensures Stage(k, i.(tree := u), true, mounted)
    ensures Undisturbed(k, mounted) ==> Live(k, i.(tree := u)) && IsDirectory(u, k.Root() + k.D())
  {
    MakeDirsLook(i.tree, d + made, OpenBeneath.PRIVATE);
    if Undisturbed(k, mounted) {
      forall x | x in u.Keys + i.tree.Keys && Look(u, x) != Look(i.tree, x)
        ensures !OnTheWay(k, x) && InMount(Extra(k, i), x)
      {
        MadeIsBelow(i.tree, d, made, x);
        BelowPoint(k, i, x);
      }
      StirredStays(k, i, mounted, u);
      StirredLives(k, i, u);
    } else {
      forall x | x in i.tree ensures Look(u, x) == Look(i.tree, x) {}
      assert Look(u, k.Root()) == Look(i.tree, k.Root()) && Look(u, k.Root() + k.S()) == Look(i.tree, k.Root() + k.S());
      assert Within(k.before.tree, u) by { assert forall x | x in k.before.tree :: Look(u, x) == Look(i.tree, x); }
    }
  }

  lemma MadeIsBelow(t: Tree, d: Path, made: Path, x: Path)
    requires WellFormed(t) && d in t && x !in t && Upto(x, d + made)
    ensures Above(d, x)
  {
    var p := d + made;
    assert p[..|d|] == d;
    if |x| <= |d| {
      PrefixesCompare(p, x, d);
      if x != d { AncestorsAreDirs(t, d, x); }
    } else {
      PrefixesCompare(p, d, x);
    }
  }

  /** A tidy state whose mounts of the run are among those named in `left`. */
  ghost predicate StillMounted(k: Setting, i: Image, left: seq<Path>) {
    && k.Valid() && k.BothAccepted() && !k.Linked() && Grown(k, i) && Tidy(k, i)
    && forall m | m in Extra(k, i) :: exists n :: n in left && m.point == k.Root() + n
  }

  lemma AllNamed(k: Setting, i: Image)
    requires k.Valid() && k.BothAccepted() && !k.Linked() && Grown(k, i) && Tidy(k, i)
    ensures StillMounted(k, i, k.Names()[0..])
  {
    assert k.Names()[0..] == k.Names();
    forall m | m in Extra(k, i) ensures exists n :: n in k.Names() && m.point == k.Root() + n {
      assert IsName(k, m.point);
    }
  }

  lemma OneFewer(k: Setting, i: Image, n: Path, left: seq<Path>)
    requires StillMounted(k, i, [n] + left) && n in k.Names()
    ensures StillMounted(k, Unmounted(i, k.Temp() + n), left)
  {
    var u := Unmounted(i, k.Temp() + n);
    UnmountedTidy(k, i, n);
    forall m | m in Extra(k, u) ensures exists x :: x in left && m.point == k.Root() + x {
      OtherName(k.Root(), left, n, m.point);
    }
  }

  lemma SomeMount(mounts: seq<Mounted>)
    requires mounts != []
    ensures exists m :: m in mounts
  {
    assert mounts[0] in mounts;
  }

  lemma NoneMounted(k: Setting, i: Image)
    requires StillMounted(k, i, [])
    ensures Extra(k, i) == []
  {
    if Extra(k, i) != [] {
      SomeMount(Extra(k, i));
      assert false;
    }
  }

  /** Names of one component each, all different, and no link above: nothing can
      disturb such a run. */
  ghost predicate Simple(k: Setting) {
    && k.BothAccepted() && !k.Linked() && |k.S()| == 1 && |k.D()| == 1 && k.S() != k.D()
    && k.S() != [PINNED_SOURCE] && k.S() != [PINNED_DESTINATION]
    && k.D() != [PINNED_SOURCE] && k.D() != [PINNED_DESTINATION]
  }

  /** The directory for temporary files is there, and the name in it is free. */
  predicate HasPlace(t: Tree, parent: Path, name: Name) {
    var spot := Resolve(t, parent, true);
    spot.At? && IsDirectory(t, spot.path) && spot.path + [name] !in t
  }

  /** Where all that lies in the workspace is mounted on, other names are free. */
  lemma FreeName(k: Setting, i: Image, n: Path)
    requires k.Valid() && k.BothAccepted() && Grown(k, i) && Live(k, i) && |n| == 1
    requires !IsPoint(Extra(k, i), k.Root() + n)
    ensures k.Root() + n !in i.tree && MkdirAt(i.tree, k.Temp() + n) == Some(k.Root() + n)
  {
    assert Parent(k.Root() + n) == k.Root() && n == [n[0]];
    OneNamePlace(k, i, n[0]);
  }

  /** One of the two names for pins. */
  predicate IsPin(k: Setting, pin: string) {
    k.BothAccepted() && Accepted(pin) && Inside(pin) == [pin] && [pin] in k.Names()
  }

  lemma PinsArePins(k: Setting)
    requires k.BothAccepted()
    ensures IsPin(k, PINNED_SOURCE) && IsPin(k, PINNED_DESTINATION) && PINNED_SOURCE != PINNED_DESTINATION
  {
    Pins();
    assert k.Names()[0] in k.Names() && k.Names()[1] in k.Names();
    assert |PINNED_SOURCE| == |PINNED_DESTINATION| && PINNED_SOURCE[8] != PINNED_DESTINATION[8];
  }

  lemma PinIsSafe(k: Setting, i: Image, mounted: bool, pin: string)
    requires Stage(k, i, true, mounted) && Undisturbed(k, mounted) && IsPin(k, pin)
    ensures Safe(i.tree, k.Temp(), pin)
  {
    assert Unlinked(i.tree, k.Root() + [pin]);
    assert k.Root() == k.Temp();
    UnlinkedIsSafe(i.tree, k.Temp(), pin);
  }

  lemma SimpleIsUndisturbed(k: Setting, mounted: bool)
    requires Simple(k)
    ensures Undisturbed(k, mounted)
  {
  }

  lemma DestinationIsFree(k: Setting, i: Image)
    requires Simple(k) && Stage(k, i, true, true) && (Undisturbed(k, true) ==> Live(k, i))
    requires |i.mounts| == |k.before.mounts| + 1
    requires Undisturbed(k, true) ==> i.mounts[|k.before.mounts|].point == k.Root() + k.S()
    ensures Undisturbed(k, true) && MkdirAt(i.tree, k.Temp() + k.D()) == Some(k.Root() + k.D())
  {
    SimpleIsUndisturbed(k, true);
    var m := i.mounts[|k.before.mounts|];
    assert Extra(k, i) == [m] && forall x | x in [m] :: x == m;
    assert (k.Root() + k.S())[|k.Root()|..] == k.S() && (k.Root() + k.D())[|k.Root()|..] == k.D();
    FreeName(k, i, k.D());
  }

  /** The source's mount shows the same after the destination's. */
  lemma BothOpen(k: Setting, t: Tree, u: Tree, subpath: string)
    requires Simple(k) && WellFormed(t) && k.Root() + k.S() in t && GrownAt(t, u, k.Root() + k.D())
    ensures CanOpen(u, k.Root() + k.S(), subpath, false) <==> CanOpen(Seen(t, k.Root() + k.S()), [], subpath, false)
  {
    assert (k.Root() + k.S())[..|k.Root()|] == k.Root();
    SeenBesides(k.Root(), t, u, k.Root() + k.S(), k.D());
    OpensAsSeen(u, k.Root() + k.S(), subpath, false);
  }

  /** Which points there are before the next pin. */
  lemma PointsSoFar(k: Setting, i: Image, pin: string)
    requires k.BothAccepted() && k.before.mounts <= i.mounts && |i.mounts| >= |k.before.mounts| + 2
    requires i.mounts[|k.before.mounts|].point == k.Root() + k.S()
    requires i.mounts[|k.before.mounts| + 1].point == k.Root() + k.D()
    requires forall j | |k.before.mounts| + 2 <= j < |i.mounts| :: i.mounts[j].point != k.Root() + [pin]
    ensures IsPoint(Extra(k, i), k.Root() + k.S()) && IsPoint(Extra(k, i), k.Root() + k.D())
    ensures k.S() != [pin] && k.D() != [pin] ==> !IsPoint(Extra(k, i), k.Root() + [pin])
  {
    var extra := Extra(k, i);
    assert extra[0] in extra && extra[1] in extra;
    forall m | m in extra && k.S() != [pin] && k.D() != [pin] ensures m.point != k.Root() + [pin] {
      var j :| 0 <= j < |extra| && extra[j] == m;
      assert m == i.mounts[|k.before.mounts| + j];
      assert (k.Root() + k.S())[|k.Root()|..] == k.S() && (k.Root() + k.D())[|k.Root()|..] == k.D();
      assert (k.Root() + [pin])[|k.Root()|..] == [pin];
    }
  }

  lemma PointsOfThree(k: Setting, i: Image, first: string, second: string)
    requires k.BothAccepted() && k.before.mounts <= i.mounts && |i.mounts| == |k.before.mounts| + 3
    requires i.mounts[|k.before.mounts|].point == k.Root() + k.S()
    requires i.mounts[|k.before.mounts| + 1].point == k.Root() + k.D()
    requires i.mounts[|k.before.mounts| + 2].point == k.Root() + [first] && first != second
    ensures IsPoint(Extra(k, i), k.Root() + k.D())
    ensures k.S() != [second] && k.D() != [second] ==> !IsPoint(Extra(k, i), k.Root() + [second])
  {
    assert (k.Root() + [first])[|k.Root()|] == first && (k.Root() + [second])[|k.Root()|] == second;
    PointsSoFar(k, i, second);
  }

  /** No path of the workspace passes the guard if a link lies above it. */
  lemma LinkedIsRefused(k: Setting, t: Tree, n: Path)
    requires k.Valid() && Within(k.before.tree, t) && WellFormed(t) && Plain(n) && Unlinked(t, k.Temp() + n)
    ensures !k.Linked()
  {
    var path := k.Temp() + n;
    assert Plain(path);
    assert Upto(k.parent, path) by { assert path[..|k.parent|] == k.parent; }
    GuardedResolution(t, path, k.parent, true);
    ParentResolves(k, t);
  }

  class Runner {
    const kernel: Kernel
    /** The names of the two mount points, what is mounted there, and the
        directories in them between which to copy. */
    const source: string
    const destination: string
    const sourceVolume: Volume
    const destinationVolume: Volume
    const sourceSubpath: string
    const destinationSubpath: string
    const fileMode: Perm

    constructor (kernel: Kernel, source: string, destination: string, sourceVolume: Volume, destinationVolume: Volume,
                 sourceSubpath: string, destinationSubpath: string, fileMode: Perm)
      ensures this.kernel == kernel && this.source == source && this.destination == destination
      ensures this.sourceVolume == sourceVolume && this.destinationVolume == destinationVolume
      ensures this.sourceSubpath == sourceSubpath && this.destinationSubpath == destinationSubpath
      ensures this.fileMode == fileMode
    {
      this.kernel, this.source, this.destination := kernel, source, destination;
      this.sourceVolume, this.destinationVolume := sourceVolume, destinationVolume;
      this.sourceSubpath, this.destinationSubpath, this.fileMode := sourceSubpath, destinationSubpath, fileMode;
    }

    ghost predicate Mine(k: Setting) {
      k.source == source && k.destination == destination && k.content == sourceVolume
      && WellFormed(sourceVolume.tree) && WellFormed(destinationVolume.tree)
    }

    ghost predicate AtStage(k: Setting, made: bool, mounted: bool)
      reads kernel`tree, kernel`mounts
    {
      Mine(k) && Stage(k, kernel.Now(), made, mounted)
    }

    /** While no call has failed: every directory of the workspace is mounted
        on, and the destination's mount point is there once `done`. */
    ghost predicate Going(k: Setting, mounted: bool, done: bool)
      requires k.BothAccepted() && k.before.mounts <= kernel.mounts
      reads kernel`tree, kernel`mounts
    {
      Undisturbed(k, mounted) ==> Live(k, kernel.Now()) && (done ==> IsDirectory(kernel.tree, k.Root() + k.D()))
    }

    method Change(k: Setting, ghost mounted: bool, ghost done: bool)
      requires AtStage(k, true, mounted) && Going(k, mounted, done)
      modifies kernel`tree
      ensures AtStage(k, true, mounted) && Going(k, mounted, done)
    {
      var u: Tree := *;
      if Stirred(k, kernel.Now(), u) {
        StirredStays(k, kernel.Now(), mounted, u);
        if Undisturbed(k, mounted) {
          StirredLives(k, kernel.Now(), u);
        }
        kernel.tree := u;
      }
    }

    /** Anything others do inside the mounts of the run. */
    method Stir(k: Setting, ghost mounted: bool, ghost done: bool)
      requires AtStage(k, true, mounted) && Going(k, mounted, done)
      modifies kernel`tree, kernel`incidents
      ensures kernel.incidents >= old(kernel.incidents)
      ensures kernel.incidents == old(kernel.incidents) ==> kernel.tree == old(kernel.tree)
      ensures AtStage(k, true, mounted) && Going(k, mounted, done)
    {
      var quiet := kernel.Granted();
      if !quiet {
        Change(k, mounted, done);
      }
    }

    /** The mount table has one entry more, and what it shows is what was mounted. */
    ghost predicate NewMount(was: seq<Mounted>, content: Volume)
      reads kernel`tree, kernel`mounts
    {
      && |kernel.mounts| == |was| + 1 && was <= kernel.mounts
      && var m := kernel.mounts[|was|]; m.origin == content.origin && Seen(kernel.tree, m.point) == content.tree
    }

    /** `sys.Mount` of the source, the first thing in the workspace. */
    method MountSource(k: Setting) returns (made: bool, ok: bool)
      requires k.Valid() && k.BothAccepted() && Mine(k) && kernel.Now() == k.Start()
      modifies kernel
      ensures AtStage(k, made, ok) && (ok ==> made && Going(k, true, false))
      ensures kernel.incidents >= old(kernel.incidents)
      ensures kernel.incidents == old(kernel.incidents) ==> (ok <==> |k.S()| == 1)
      ensures ok ==> NewMount(k.before.mounts, sourceVolume)
      ensures ok && Undisturbed(k, true) ==> kernel.mounts[|k.before.mounts|].point == k.Root() + k.S()
    {
      SourceOutcome(k);
      if |k.S()| == 1 { SourceCanBeMade(k); }
      made, ok := kernel.MakeAndMount(k.Temp() + Inside(source), sourceVolume);
      if ok { MountShows(k.Start(), k.Temp() + Inside(source), sourceVolume); }
    }

    /** `sys.Mount` of any further point. */
    method Mount(k: Setting, n: Path, content: Volume, ghost mounted: bool) returns (made: bool, ok: bool)
      requires AtStage(k, true, mounted) && n in k.Names() && WellFormed(content.tree) && Going(k, mounted, n != k.D())
      modifies kernel
      ensures AtStage(k, true, mounted) && kernel.incidents >= old(kernel.incidents)
      ensures kernel.incidents == old(kernel.incidents) && MkdirAt(old(kernel.tree), k.Temp() + n).Some? ==> ok
      ensures ok ==> made && Going(k, mounted, true) && NewMount(old(kernel.mounts), content)
      ensures ok && Undisturbed(k, mounted) ==>
                var q := k.Root() + n;
                kernel.mounts[|old(kernel.mounts)|].point == q && GrownAt(old(kernel.tree), kernel.tree, q)
    {
      PointOutcome(k, kernel.Now(), mounted, n, content);
      made, ok := kernel.MakeAndMount(k.Temp() + n, content);
      if ok {
        MountShows(old(kernel.Now()), k.Temp() + n, content);
        CoverGrows(old(kernel.Now()), MkdirAt(old(kernel.tree), k.Temp() + n).value, content);
      }
    }

    /** Remounts with stricter options, or takes the mount off again. */
    method Remount(path: Path, content: Volume, ghost i: Image) returns (ok: bool)
      requires WellFormed(i.tree) && WellFormed(content.tree)
      requires path != [] && Plain(path) && MkdirAt(i.tree, path).Some?
      requires kernel.Now() == MountedOn(i, path, content)
      modifies kernel
      ensures kernel.incidents == old(kernel.incidents) + if ok then 0 else 1
      ensures kernel.Now() == if ok then old(kernel.Now()) else MadeAt(i, path)
    {
      ok := kernel.Granted();
      if !ok {
        UnmountUndoes(i, path, content);
        kernel.Unmount(path);
      }
    }

    /** `sys.BindMountFD`: a mount of a directory that is open, and a remount. */
    method BindMount(k: Setting, n: Path, content: Volume, ghost mounted: bool) returns (ok: bool)
      requires AtStage(k, true, mounted) && n in k.Names() && WellFormed(content.tree) && Going(k, mounted, true)
      modifies kernel
      ensures kernel.incidents >= old(kernel.incidents)
      ensures kernel.incidents == old(kernel.incidents) && MkdirAt(old(kernel.tree), k.Temp() + n).Some? ==> ok
      ensures AtStage(k, true, mounted) && (ok ==> Going(k, mounted, true))
      ensures if ok then NewMount(old(kernel.mounts), content) else kernel.mounts == old(kernel.mounts)
      ensures ok && Undisturbed(k, mounted) ==>
                var q := k.Root() + n;
                kernel.mounts[|old(kernel.mounts)|].point == q && GrownAt(old(kernel.tree), kernel.tree, q)
    {
      ghost var i := kernel.Now();
      PointOutcome(k, i, mounted, n, content);
      var made;
      made, ok := kernel.MakeAndMount(k.Temp() + n, content);
      if ok {
        MountShows(i, k.Temp() + n, content);
        CoverGrows(i, MkdirAt(i.tree, k.Temp() + n).value, content);
        ok := Remount(k.Temp() + n, content, i);
      }
    }

    /** `sys.ChmodFD` of a directory in a mount. What a link of the mounted
        source leads to outside the mounts is not followed here. */
    method Chmod(k: Setting, ghost mounted: bool, dir: Path)
      requires AtStage(k, true, mounted) && Going(k, mounted, true) && IsDirectory(kernel.tree, dir)
      requires Undisturbed(k, mounted) ==> InDestination(k, kernel.Now(), dir)
      modifies kernel`tree
      ensures AtStage(k, true, mounted) && Going(k, mounted, true) && IsDirectory(kernel.tree, dir)
      ensures Undisturbed(k, mounted) ==> kernel.tree[dir].perm == fileMode | 0x1C0
    {
      var u := kernel.tree[dir := Dir(fileMode | 0x1C0, false, kernel.tree[dir].trusted)];
      if Undisturbed(k, mounted) { AttributesAreStirred(k, kernel.Now(), u, dir); }
      if Stirred(k, kernel.Now(), u) {
        StirredStays(k, kernel.Now(), mounted, u);
        if Undisturbed(k, mounted) { StirredLives(k, kernel.Now(), u); }
        kernel.tree := u;
      }
    }

    /** `sys.OpenDirBeneath` below a mount point of the run, creating what is
        missing only in the destination. */
    method OpenSubpath(k: Setting, n: Path, subpath: string, create: bool, ghost mounted: bool)
        returns (dir: Option<Path>)
      requires AtStage(k, true, mounted) && Going(k, mounted, true) && (n == k.S() || n == k.D())
      requires Undisturbed(k, mounted) ==> IsPoint(Extra(k, kernel.Now()), k.Root() + n) && (create ==> n == k.D())
      modifies kernel`tree, kernel`incidents
      ensures kernel.incidents >= old(kernel.incidents) && (!create ==> kernel.tree == old(kernel.tree))
      ensures kernel.incidents == old(kernel.incidents) && Undisturbed(k, mounted) ==>
                (dir.Some? <==> CanOpen(old(kernel.tree), k.Root() + n, subpath, create))
      ensures AtStage(k, true, mounted) && Going(k, mounted, true)
      ensures dir.Some? ==> IsDirectory(kernel.tree, dir.value) && LedTo(subpath, dir.value)
      ensures dir.Some? && Undisturbed(k, mounted) ==>
                && dir.value == DirBelow(k, n, subpath) && Above(k.Root(), dir.value)
                && dir.value == k.Root() + n + Clean(OpenBeneath.Subpath(subpath))
                && (create ==> InDestination(k, kernel.Now(), dir.value))
    {
      dir := OpenKeeping(k, n, subpath, create, mounted);
      if dir.Some? && Undisturbed(k, mounted) {
        OpenedIsBelow(k, kernel.Now(), mounted, n, Clean(OpenBeneath.Subpath(subpath)));
      }
    }

    method OpenKeeping(k: Setting, n: Path, subpath: string, create: bool, ghost mounted: bool)
        returns (dir: Option<Path>)
      requires AtStage(k, true, mounted) && Going(k, mounted, true) && (n == k.S() || n == k.D())
      requires Undisturbed(k, mounted) ==> IsPoint(Extra(k, kernel.Now()), k.Root() + n) && (create ==> n == k.D())
      modifies kernel`tree, kernel`incidents
      ensures kernel.incidents >= old(kernel.incidents) && (!create ==> kernel.tree == old(kernel.tree))
      ensures kernel.incidents == old(kernel.incidents) && Undisturbed(k, mounted) ==>
                (dir.Some? <==> CanOpen(old(kernel.tree), k.Root() + n, subpath, create))
      ensures AtStage(k, true, mounted) && Going(k, mounted, true)
      ensures dir.Some? ==> IsDirectory(kernel.tree, dir.value) && LedTo(subpath, dir.value)
      ensures dir.Some? && Undisturbed(k, mounted) ==>
                dir.value == DirBelow(k, n, subpath) == k.Root() + n + Clean(OpenBeneath.Subpath(subpath))
    {
      ghost var i := kernel.Now();
      if Undisturbed(k, mounted) { PointLeads(k, i, mounted, n); }
      ghost var d, made;
      dir, d, made := kernel.OpenDirBeneath(k.Temp() + n, subpath, create);
      if kernel.tree != i.tree {
        MakingStays(k, i, mounted, kernel.tree, d, made);
      }
    }

    /** The directory the subpath leads to below the mount point `n`. */
    ghost function DirBelow(k: Setting, n: Path, subpath: string): Path {
      Follow(k.Root() + n, Components(OpenBeneath.Subpath(subpath)))
    }

    /** Mounts an open directory on the pin: both show the same. */
    method PinDirectory(k: Setting, n: Path, dir: Path, ghost mounted: bool) returns (ok: bool)
      requires AtStage(k, true, mounted) && Going(k, mounted, true) && IsDirectory(kernel.tree, dir)
      requires n in k.Names() && |n| == 1 && (Undisturbed(k, mounted) ==> Above(k.Root(), dir))
      modifies kernel
      ensures kernel.incidents >= old(kernel.incidents)
      ensures kernel.incidents == old(kernel.incidents) && MkdirAt(old(kernel.tree), k.Temp() + n).Some? ==> ok
      ensures AtStage(k, true, mounted) && (ok ==> Going(k, mounted, true))
      ensures |kernel.mounts| == |old(kernel.mounts)| + (if ok then 1 else 0) && old(kernel.mounts) <= kernel.mounts
      ensures ok ==> kernel.mounts[|old(kernel.mounts)|].origin == Directory(dir)
      ensures ok && Undisturbed(k, mounted) ==>
                var m := kernel.mounts[|old(kernel.mounts)|];
                && m.point == k.Root() + n && GrownAt(old(kernel.tree), kernel.tree, k.Root() + n)
                && Look(kernel.tree, dir) == Look(old(kernel.tree), dir)
                && Seen(kernel.tree, m.point) == Seen(kernel.tree, dir)
    {
      var content := Volume(Directory(dir), Seen(kernel.tree, dir));
      SeenWellFormed(kernel.tree, dir);
      ghost var t := kernel.tree;
      ok := BindMount(k, n, content, mounted);
      if ok && Undisturbed(k, mounted) { SeenBesides(k.Root(), t, kernel.tree, dir, n); }
    }

    /** The mount is a directory the subpath leads to. */
    ghost predicate Pinned(m: Mounted, subpath: string) {
      m.origin.Directory? && LedTo(subpath, m.origin.path)
    }

    /** The check of the pin's path. */
    method CheckPin(k: Setting, pin: string, ghost mounted: bool) returns (pinPath: Option<Path>)
      requires AtStage(k, true, mounted) && Going(k, mounted, true) && IsPin(k, pin)
      modifies kernel`tree, kernel`incidents
      ensures AtStage(k, true, mounted) && Going(k, mounted, true) && kernel.incidents >= old(kernel.incidents)
      ensures pinPath.Some? ==> pinPath.value == k.Temp() + [pin]
      ensures kernel.incidents == old(kernel.incidents) ==> kernel.tree == old(kernel.tree)
      ensures kernel.incidents == old(kernel.incidents) && Undisturbed(k, mounted) ==> pinPath.Some?
    {
      if Undisturbed(k, mounted) { PinIsSafe(k, kernel.Now(), mounted, pin); }
      pinPath := kernel.SafeWorkspacePath(k.Temp(), pin, false);
      Stir(k, mounted, true);
    }

    /** The directory to pin: opened and, in the destination, created and given its
        mode. */
    method OpenForPin(k: Setting, n: Path, subpath: string, create: bool, ghost mounted: bool)
        returns (dir: Option<Path>)
      requires AtStage(k, true, mounted) && Going(k, mounted, true) && (n == k.S() || n == k.D())
      requires Undisturbed(k, mounted) ==> IsPoint(Extra(k, kernel.Now()), k.Root() + n) && (create ==> n == k.D())
      modifies kernel`tree, kernel`incidents
      ensures AtStage(k, true, mounted) && Going(k, mounted, true) && kernel.incidents >= old(kernel.incidents)
      ensures dir.Some? ==> IsDirectory(kernel.tree, dir.value) && LedTo(subpath, dir.value)
      ensures dir.Some? && Undisturbed(k, mounted) ==>
                && dir.value == DirBelow(k, n, subpath) && Above(k.Root(), dir.value)
                && (create ==> kernel.tree[dir.value].perm == fileMode | 0x1C0)
      ensures !create ==> kernel.tree == old(kernel.tree)
      ensures kernel.incidents == old(kernel.incidents) && Undisturbed(k, mounted) ==>
                (dir.Some? <==> CanOpen(old(kernel.tree), k.Root() + n, subpath, create))
    {
      dir := OpenSubpath(k, n, subpath, create, mounted);
      if dir.Some? && create {
        var granted := kernel.Granted();
        if granted {
          Chmod(k, mounted, dir.value);
        } else {
          dir := None;
        }
      }
    }

    /** Opens a directory below a mount, creating it in the destination, and
        pins it; every call may fail. If none does, and the pin's name is free, it
        works exactly when the subpath can be opened. */
    method PinSubpathMount(k: Setting, pin: string, n: Path, subpath: string, create: bool, ghost mounted: bool)
        returns (pinned: Option<Path>)
      requires AtStage(k, true, mounted) && Going(k, mounted, true) && IsPin(k, pin)
      requires n == k.S() || n == k.D()
      requires Undisturbed(k, mounted) ==> IsPoint(Extra(k, kernel.Now()), k.Root() + n) && (create ==> n == k.D())
      modifies kernel
      ensures AtStage(k, true, mounted) && (pinned.Some? ==> Going(k, mounted, true))
      ensures kernel.incidents >= old(kernel.incidents)
      ensures |kernel.mounts| == |old(kernel.mounts)| + (if pinned.Some? then 1 else 0)
      ensures old(kernel.mounts) <= kernel.mounts && (pinned.Some? ==> pinned.value == k.Temp() + [pin])
      ensures pinned.Some? ==> Pinned(kernel.mounts[|old(kernel.mounts)|], subpath)
      ensures pinned.Some? && Undisturbed(k, mounted) ==>
                var m := kernel.mounts[|old(kernel.mounts)|]; var dir := DirBelow(k, n, subpath);
                && m.point == k.Root() + [pin] && m.origin == Directory(dir) && IsDirectory(kernel.tree, dir)
                && Seen(kernel.tree, m.point) == Seen(kernel.tree, dir)
                && (create ==> kernel.tree[dir].perm == fileMode | 0x1C0)
      ensures kernel.incidents == old(kernel.incidents) && Undisturbed(k, mounted)
              && !IsPoint(old(Extra(k, kernel.Now())), k.Root() + [pin]) ==>
                && (pinned.Some? <==> CanOpen(old(kernel.tree), k.Root() + n, subpath, create))
                && (pinned.Some? && !create ==> GrownAt(old(kernel.tree), kernel.tree, k.Root() + [pin]))
    {
      pinned := CheckPin(k, pin, mounted);
      if pinned.None? {
        return;
      }
      var dir := OpenForPin(k, n, subpath, create, mounted);
      if dir.None? {
        return None;
      }
      if Undisturbed(k, mounted) && !IsPoint(Extra(k, kernel.Now()), k.Root() + [pin]) {
        FreeName(k, kernel.Now(), [pin]);
      }
      var ok := PinDirectory(k, [pin], dir.value, mounted);
      if !ok {
        pinned := None;
      }
    }

    /** Where a run stands that has made its workspace. */
    ghost predicate Begun(k: Setting, made: bool, mounted: bool)
      reads kernel`tree, kernel`mounts
    {
      && Mine(k) && k.Valid()
      && if k.BothAccepted() then Stage(k, kernel.Now(), made, mounted) else kernel.Now() == k.Start() && !made
    }

    /** The four mounts of a run that went through: the source on its mount
        point, the destination on its own, and then the directories in them
        between which to copy, each on a point of its own. */
    ghost predicate AllMounted(k: Setting)
      requires k.BothAccepted()
      reads kernel`tree, kernel`mounts
    {
      var n := |k.before.mounts|;
      && |kernel.mounts| == n + 4 && k.before.mounts <= kernel.mounts
      && kernel.mounts[n].origin == sourceVolume.origin && kernel.mounts[n + 1].origin == destinationVolume.origin
      && Pinned(kernel.mounts[n + 2], sourceSubpath) && Pinned(kernel.mounts[n + 3], destinationSubpath)
      && (Undisturbed(k, true) ==>
            && kernel.mounts[n].point == k.Root() + k.S()
            && kernel.mounts[n + 1].point == k.Root() + k.D()
            && kernel.mounts[n + 2].point == k.Root() + [PINNED_SOURCE]
            && kernel.mounts[n + 2].origin == Directory(DirBelow(k, k.S(), sourceSubpath))
            && kernel.mounts[n + 3].point == k.Root() + [PINNED_DESTINATION]
            && kernel.mounts[n + 3].origin == Directory(DirBelow(k, k.D(), destinationSubpath)))
    }

    /** `os.MkdirTemp`: a fresh directory in the one for temporary files. */
    method MkdirTemp(parent: Path, name: Name) returns (run: Option<Setting>)
      requires kernel.Valid() && Plain(parent + [name])
      requires WellFormed(sourceVolume.tree) && WellFormed(destinationVolume.tree)
      modifies kernel`tree, kernel`incidents
      ensures kernel.incidents >= old(kernel.incidents)
      ensures kernel.incidents == old(kernel.incidents) ==> (run.Some? <==> HasPlace(old(kernel.tree), parent, name))
      ensures run.None? ==> kernel.Now() == old(kernel.Now())
      ensures run.Some? ==> var k := run.value;
                && Mine(k) && k.Valid() && k.before == old(kernel.Now()) && k.parent == parent && k.name == name
                && kernel.Now() == k.Start()
    {
      var ok := kernel.Granted();
      match Resolve(kernel.tree, parent, true) {
        case At(place) =>
          if ok && place in kernel.tree && kernel.tree[place].Dir? && place + [name] !in kernel.tree {
            var k := Setting(kernel.Now(), parent, place, name, source, destination, sourceVolume);
            kernel.tree := kernel.tree[k.Root() := NEW_DIR];
            return Some(k);
          }
          return None;
        case _ => return None;
      }
    }

    /** Any call may fail; what was done by then stays for the cleanup. On
        success both roots and both pinned subdirectories are mounted, and the
        two paths returned for copying lead to the latter. If no call is refused
        and the names are simple, it succeeds exactly when the subpaths open. */
    method PrepareMountPoint(parent: Path, name: Name)
        returns (run: Option<Setting>, ok: bool, made: bool, mounted: bool, from: Path, to: Path)
      requires kernel.Valid() && Plain(parent + [name])
      requires WellFormed(sourceVolume.tree) && WellFormed(destinationVolume.tree)
      modifies kernel
      ensures kernel.incidents >= old(kernel.incidents)
      ensures kernel.incidents == old(kernel.incidents) ==>
                && (run.Some? <==> HasPlace(old(kernel.tree), parent, name))
                && (run.Some? && Simple(run.value) ==> (ok <==> SubpathsOpen()))
      ensures run.None? ==> !ok && kernel.Now() == old(kernel.Now())
      ensures run.Some? ==> var k := run.value;
                Begun(k, made, mounted) && k.before == old(kernel.Now()) && k.parent == parent && k.name == name
      ensures ok ==> made && mounted && run.value.BothAccepted()
      ensures ok ==> AllMounted(run.value) && Going(run.value, true, true)
      ensures ok ==> from == run.value.Temp() + [PINNED_SOURCE] && to == run.value.Temp() + [PINNED_DESTINATION]
      ensures ok && Undisturbed(run.value, true) ==> Lead(run.value, from, to)
    {
      made, mounted, from, to := false, false, [], [];
      run := MkdirTemp(parent, name);
      if run.None? {
        ok := false;
        return;
      }
      var k := run.value;
      if k.BothAccepted() {
        StartIsTidy(k);
        EmptyIsSafe(k, source);
        EmptyIsSafe(k, destination);
      }
      ok := kernel.Granted();
      if !ok {
        return;
      }
      ok := false;
      var srcPath := kernel.SafeWorkspacePath(k.Temp(), source, false);
      if srcPath.None? {
        return;
      }
      var dstPath := kernel.SafeWorkspacePath(k.Temp(), destination, false);
      if dstPath.None? {
        return;
      }
      made, mounted := MountSource(k);
      if !mounted {
        return;
      }
      ok, from, to := MountRest(k);
    }

    /** The paths lead to the pinned mounts. */
    ghost predicate Lead(k: Setting, from: Path, to: Path)
      requires k.BothAccepted()
      reads kernel`tree, kernel`mounts
    {
      && AllMounted(k)
      && Resolve(kernel.tree, from, true) == At(kernel.mounts[|k.before.mounts| + 2].point)
      && Resolve(kernel.tree, to, true) == At(kernel.mounts[|k.before.mounts| + 3].point)
    }

    /** Both roots are mounted, each on its own point. */
    ghost predicate RootsMounted(k: Setting)
      requires k.BothAccepted()
      reads kernel`tree, kernel`mounts
    {
      var n := |k.before.mounts|;
      && |kernel.mounts| == n + 2 && k.before.mounts <= kernel.mounts
      && kernel.mounts[n].origin == sourceVolume.origin && kernel.mounts[n + 1].origin == destinationVolume.origin
      && (Undisturbed(k, true) ==>
            kernel.mounts[n].point == k.Root() + k.S() && kernel.mounts[n + 1].point == k.Root() + k.D())
    }

    /** The second mount of the run. */
    method MountDestination(k: Setting) returns (ok: bool)
      requires AtStage(k, true, true) && Going(k, true, false) && NewMount(k.before.mounts, sourceVolume)
      requires Undisturbed(k, true) ==> kernel.mounts[|k.before.mounts|].point == k.Root() + k.S()
      modifies kernel
      ensures AtStage(k, true, true) && kernel.incidents >= old(kernel.incidents)
      ensures ok ==> Going(k, true, true) && RootsMounted(k)
      ensures kernel.incidents == old(kernel.incidents) && MkdirAt(old(kernel.tree), k.Temp() + k.D()).Some? ==> ok
      ensures ok && Undisturbed(k, true) ==>
                && GrownAt(old(kernel.tree), kernel.tree, k.Root() + k.D())
                && Seen(kernel.tree, k.Root() + k.D()) == destinationVolume.tree
    {
      assert k.Names()[3] in k.Names();
      var made;
      made, ok := Mount(k, k.D(), destinationVolume, true);
    }

    /** The destination, and then the two pinned subdirectories. */
    method MountRest(k: Setting) returns (ok: bool, from: Path, to: Path)
      requires AtStage(k, true, true) && Going(k, true, false) && NewMount(k.before.mounts, sourceVolume)
      requires Undisturbed(k, true) ==> kernel.mounts[|k.before.mounts|].point == k.Root() + k.S()
      modifies kernel
      ensures AtStage(k, true, true) && (ok ==> AllMounted(k) && Going(k, true, true))
      ensures ok ==> from == k.Temp() + [PINNED_SOURCE] && to == k.Temp() + [PINNED_DESTINATION]
      ensures ok && Undisturbed(k, true) ==> Lead(k, from, to)
      ensures kernel.incidents >= old(kernel.incidents)
      ensures kernel.incidents == old(kernel.incidents) && Simple(k) ==> (ok <==> SubpathsOpen())
    {
      from, to := [], [];
      ghost var t := kernel.tree;
      if Simple(k) { DestinationIsFree(k, kernel.Now()); }
      ok := MountDestination(k);
      if ok {
        if Simple(k) { BothOpen(k, t, kernel.tree, sourceSubpath); }
        ok := PinBoth(k);
        if ok { from, to := k.Temp() + [PINNED_SOURCE], k.Temp() + [PINNED_DESTINATION]; }
      }
      if ok && Undisturbed(k, true) {
        MountLeads(k, kernel.Now(), true, [PINNED_SOURCE], |k.before.mounts| + 2);
        MountLeads(k, kernel.Now(), true, [PINNED_DESTINATION], |k.before.mounts| + 3);
      }
    }

    /** The source's subpath is there, and the destination's can be made. */
    ghost predicate SubpathsOpen() {
      && CanOpen(sourceVolume.tree, [], sourceSubpath, false)
      && CanOpen(destinationVolume.tree, [], destinationSubpath, true)
    }

    /** The two pins, if nothing else happens, work exactly when the subpaths can
        be opened. */
    method PinBoth(k: Setting) returns (ok: bool)
      requires AtStage(k, true, true) && Going(k, true, true) && RootsMounted(k)
      modifies kernel
      ensures AtStage(k, true, true) && (ok ==> AllMounted(k) && Going(k, true, true))
      ensures kernel.incidents >= old(kernel.incidents)
      ensures kernel.incidents == old(kernel.incidents) && Simple(k) ==>
                (ok <==> && CanOpen(old(kernel.tree), k.Root() + k.S(), sourceSubpath, false)
                         && CanOpen(Seen(old(kernel.tree), k.Root() + k.D()), [], destinationSubpath, true))
    {
      ghost var n := |k.before.mounts|;
      ok := PinSource(k);
      if ok {
        OpensAsSeen(kernel.tree, k.Root() + k.D(), destinationSubpath, true);
        ok := PinDestination(k);
      }
    }

    method PinSource(k: Setting) returns (ok: bool)
      requires AtStage(k, true, true) && Going(k, true, true) && RootsMounted(k)
      modifies kernel
      ensures AtStage(k, true, true) && kernel.incidents >= old(kernel.incidents)
      ensures ok ==> Going(k, true, true) && SourcePinned(k)
      ensures kernel.incidents == old(kernel.incidents) && Simple(k) ==>
                && (ok <==> CanOpen(old(kernel.tree), k.Root() + k.S(), sourceSubpath, false))
                && (ok ==> Seen(kernel.tree, k.Root() + k.D()) == Seen(old(kernel.tree), k.Root() + k.D()))
    {
      PinsArePins(k);
      ghost var t := kernel.tree;
      if Undisturbed(k, true) { PointsSoFar(k, kernel.Now(), PINNED_SOURCE); }
      var pinned := PinSubpathMount(k, PINNED_SOURCE, k.S(), sourceSubpath, false, true);
      ok := pinned.Some?;
      if ok && kernel.incidents == old(kernel.incidents) && Simple(k) {
        SeenBesides(k.Root(), t, kernel.tree, k.Root() + k.D(), [PINNED_SOURCE]);
      }
    }

    /** The mounts after the first pin. */
    ghost predicate SourcePinned(k: Setting)
      requires k.BothAccepted()
      reads kernel`tree, kernel`mounts
    {
      var n := |k.before.mounts|;
      && |kernel.mounts| == n + 3 && k.before.mounts <= kernel.mounts
      && kernel.mounts[n].origin == sourceVolume.origin && kernel.mounts[n + 1].origin == destinationVolume.origin
      && Pinned(kernel.mounts[n + 2], sourceSubpath)
      && (Undisturbed(k, true) ==>
            && kernel.mounts[n].point == k.Root() + k.S()
            && kernel.mounts[n + 1].point == k.Root() + k.D()
            && kernel.mounts[n + 2].point == k.Root() + [PINNED_SOURCE]
            && kernel.mounts[n + 2].origin == Directory(DirBelow(k, k.S(), sourceSubpath)))
    }

    method PinDestination(k: Setting) returns (ok: bool)
      requires AtStage(k, true, true) && Going(k, true, true) && SourcePinned(k)
      modifies kernel
      ensures AtStage(k, true, true) && (ok ==> AllMounted(k) && Going(k, true, true))
      ensures kernel.incidents >= old(kernel.incidents)
      ensures kernel.incidents == old(kernel.incidents) && Simple(k) ==>
                (ok <==> CanOpen(old(kernel.tree), k.Root() + k.D(), destinationSubpath, true))
    {
      PinsArePins(k);
      if Undisturbed(k, true) { PointsOfThree(k, kernel.Now(), PINNED_SOURCE, PINNED_DESTINATION); }
      var pinned := PinSubpathMount(k, PINNED_DESTINATION, k.D(), destinationSubpath, true, true);
      return pinned.Some?;
    }

    /** Unmounts and removes everything, unless one of the four paths fails
        its check: then it leaves all as it is. */
    method CleanupDirectory(run: Option<Setting>, ghost made: bool, ghost mounted: bool)
      requires run.Some? ==> Begun(run.value, made, mounted)
      modifies kernel
      ensures kernel.incidents == old(kernel.incidents)
      ensures run.None? || Skips(run.value, made, mounted) ==> kernel.Now() == old(kernel.Now())
      ensures run.Some? && !Skips(run.value, made, mounted) ==> kernel.Now() == run.value.before
    {
      if run.None? {
        return;
      }
      var safe := CheckAll(run.value, made, mounted);
      if safe {
        TakeDown(run.value, made, mounted);
      }
    }

    /** The four checks of the cleanup. */
    method CheckAll(k: Setting, ghost made: bool, ghost mounted: bool) returns (safe: bool)
      requires Begun(k, made, mounted)
      modifies kernel`incidents
      ensures kernel.incidents == old(kernel.incidents)
      ensures safe <==> !Skips(k, made, mounted)
    {
      var temp := k.Temp();
      Pins();
      if k.BothAccepted() { CheckIff(k, kernel.Now(), made, mounted); }
      var src := kernel.SafeWorkspacePath(temp, source, true);
      var dst := kernel.SafeWorkspacePath(temp, destination, true);
      var pinnedSrc := kernel.SafeWorkspacePath(temp, PINNED_SOURCE, true);
      var pinnedDst := kernel.SafeWorkspacePath(temp, PINNED_DESTINATION, true);
      return src.Some? && dst.Some? && pinnedSrc.Some? && pinnedDst.Some?;
    }

    method TakeDown(k: Setting, ghost made: bool, ghost mounted: bool)
      requires AtStage(k, made, mounted) && !Skips(k, made, mounted)
      modifies kernel`tree, kernel`mounts
      ensures kernel.Now() == k.before
    {
      var names := k.Names();
      UnmountAll(k, made, mounted);
      for j := 0 to 4
        invariant kernel.mounts == k.before.mounts
        invariant Bare(k, kernel.Now(), names[j..]) || kernel.Now() == k.before
      {
        assert names[j..] == [names[j]] + names[j + 1..];
        NamesArePlain(k, names[j]);
        NameRemoved(k, kernel.Now(), names[j + 1..], names[j]);
        kernel.Remove(k.Temp() + names[j]);
      }
      assert names[4..] == [] && k.Temp() + [] == k.Temp();
      if kernel.Now() == k.before {
        NothingToRemove(k, []);
      } else {
        WorkspaceRemoved(k, kernel.Now(), []);
      }
      kernel.Remove(k.Temp());
    }

    method UnmountAll(k: Setting, ghost made: bool, ghost mounted: bool)
      requires AtStage(k, made, mounted) && !Skips(k, made, mounted)
      modifies kernel`tree, kernel`mounts
      ensures Bare(k, kernel.Now(), k.Names())
    {
      var names := k.Names();
      if made { AllNamed(k, kernel.Now()); }
      for j := 0 to 4
        invariant if made then StillMounted(k, kernel.Now(), names[j..]) else kernel.Now() == k.Start()
      {
        assert names[j..] == [names[j]] + names[j + 1..];
        NamesArePlain(k, names[j]);
        if made {
          OneFewer(k, kernel.Now(), names[j], names[j + 1..]);
        } else {
          StartUnmounted(k, names[j]);
        }
        kernel.Unmount(k.Temp() + names[j]);
      }
      if made {
        assert names[4..] == [];
        NoneMounted(k, kernel.Now());
        UnmountedIsBare(k, kernel.Now());
      } else {
        StartIsBare(k, names);
      }
    }

    /** `ensureNoSymlinkPath`, right before the copy. */
    method EnsureNoSymlinkPath(path: Path) returns (ok: bool)
      requires WellFormed(kernel.tree) && Plain(path)
      modifies kernel`incidents
      ensures kernel.incidents >= old(kernel.incidents)
      ensures ok ==> Unlinked(kernel.tree, path)
      ensures kernel.incidents == old(kernel.incidents) && Unlinked(kernel.tree, path) ==> ok
    {
      var healthy := kernel.Granted();
      var disk := new Disk.Disk(kernel.tree, healthy);
      ok := Guards.EnsureNoSymlinkPath(disk, path);
    }

    /** The copier, from one path to the other: whatever it does inside the
        mounts. It never runs below a link. */
    method Copy(k: Setting, from: Path, to: Path) returns (ok: bool)
      requires AtStage(k, true, true) && Going(k, true, true) && AllMounted(k)
      requires Unlinked(kernel.tree, from) && Unlinked(kernel.tree, to) && !k.Linked()
      requires Undisturbed(k, true) ==> Lead(k, from, to)
      modifies kernel`tree
      ensures AtStage(k, true, true) && Going(k, true, true)
    {
      Change(k, true, true);
      ok := *;
    }

    /** The guard on both paths. */
    method GuardBoth(k: Setting, from: Path, to: Path) returns (ok: bool)
      requires AtStage(k, true, true) && Going(k, true, true)
      requires from == k.Temp() + [PINNED_SOURCE] && to == k.Temp() + [PINNED_DESTINATION]
      modifies kernel`incidents
      ensures kernel.incidents >= old(kernel.incidents)
      ensures ok ==> Unlinked(kernel.tree, from) && Unlinked(kernel.tree, to) && !k.Linked()
      ensures kernel.incidents == old(kernel.incidents) && Undisturbed(k, true) ==> ok
    {
      PinsArePins(k);
      NamesArePlain(k, [PINNED_SOURCE]);
      NamesArePlain(k, [PINNED_DESTINATION]);
      ok := EnsureNoSymlinkPath(from);
      if ok {
        LinkedIsRefused(k, kernel.tree, [PINNED_SOURCE]);
        ok := EnsureNoSymlinkPath(to);
      }
    }

    /** One run: prepare, copy, and clean up in any case. Mount table and tree
        are as before if and only if there was no workspace, or nothing made
        the cleanup skip. With a link above the workspace nothing is copied; with
        simple names, and if no call is refused, the copier runs exactly when the
        subpaths open. */
    method Execute(parent: Path, name: Name)
        returns (run: Option<Setting>, copied: bool, ok: bool, made: bool, mounted: bool)
      requires kernel.Valid() && Plain(parent + [name])
      requires WellFormed(sourceVolume.tree) && WellFormed(destinationVolume.tree)
      modifies kernel
      ensures run.Some? ==> var k := run.value;
                Mine(k) && k.Valid() && k.before == old(kernel.Now()) && k.parent == parent && k.name == name
      ensures kernel.Now() == old(kernel.Now()) <==> run.None? || !Skips(run.value, made, mounted)
      ensures (ok ==> copied) && (copied ==> made && mounted && run.Some? && !run.value.Linked())
      ensures kernel.incidents == old(kernel.incidents) ==>
                && (run.Some? <==> HasPlace(old(kernel.tree), parent, name))
                && (run.Some? && Simple(run.value) ==> (copied <==> SubpathsOpen()))
    {
      var from, to;
      run, ok, made, mounted, from, to := PrepareMountPoint(parent, name);
      copied := false;
      if ok {
        copied := GuardBoth(run.value, from, to);
        ok := false;
        if copied { ok := Copy(run.value, from, to); }
      }
      assert run.Some? ==> run.value.Root() in kernel.tree && run.value.Root() !in run.value.before.tree;
      CleanupDirectory(run, made, mounted);
    }
  }

  // ---- The two ways to keep the mounts ----

  lemma VarTmp()
    ensures Components("/var/tmp") == ["var", "tmp"]
  {
    assert "/var/tmp"[1..] == "var" + "/tmp" && "/tmp"[1..] == "tmp" + "";
    assert "" + "var" == "var" && "" + "tmp" == "tmp";
    NameEnds("var", "/tmp", "");
    NameEnds("tmp", "", "");
    assert SplitFrom("", "tmp") == ["tmp"];
  }

  /** With a link above the workspace the source can be mounted: its check
      passes before and fails afterwards, so the cleanup leaves the mounts. */
  lemma LinkedLosesItsCheck(k: Setting)
    requires k.Valid() && k.BothAccepted() && |k.S()| == 1 && k.Linked()
    ensures Safe(k.Start().tree, k.Temp(), k.source) && MkdirAt(k.Start().tree, k.Temp() + k.S()).Some?
    ensures !Safe(MountedOn(k.Start(), k.Temp() + k.S(), k.content).tree, k.Temp(), k.source)
    ensures Skips(k, true, true)
  {
    EmptyIsSafe(k, k.source);
    SourceCanBeMade(k);
    SourceOutcome(k);
    LinkedFails(k, MountedOn(k.Start(), k.Temp() + k.S(), k.content), true);
  }

  /** `/tmp` as a link to `/var/tmp`. */
  function LinkedTmp(): Tree {
    map[[] := NEW_DIR, ["var"] := NEW_DIR, ["var", "tmp"] := NEW_DIR, ["tmp"] := Link("/var/tmp")]
  }

  lemma NothingThree(t: Tree, place: Path, name: Name)
    requires t == LinkedTmp() && |place| == 2
    ensures place + [name] !in t
  {
    assert forall x | x in t :: |x| <= 2;
    assert |place + [name]| == 3;
  }

  lemma TmpIsElsewhere(parent: Path, place: Path)
    requires parent == ["tmp"] && place == ["var", "tmp"]
    ensures parent != place && place in LinkedTmp() && LinkedTmp()[place].Dir?
  {
    assert |parent| != |place|;
  }

  lemma EmptyIsWellFormed(t: Tree)
    requires t == map[[] := NEW_DIR]
    ensures WellFormed(t)
  {
    assert forall x | x in t :: x == [];
  }

  /** Such a run: `/tmp` leads to `/var/tmp`, and the names are `src` and `dst`. */
  lemma LinkedTemporaryDirectory(k: Setting)
    requires k.before.tree == LinkedTmp() && k.before.mounts == [] && k.parent == ["tmp"] && k.place == ["var", "tmp"]
    requires Plain([k.name]) && k.source == "src" && k.destination == "dst" && k.content.tree == map[[] := NEW_DIR]
    ensures k.Valid() && k.Linked() && Safe(k.Start().tree, k.Temp(), "src")
    ensures k.BothAccepted() && MkdirAt(k.Start().tree, k.Temp() + k.S()).Some?
    ensures !Safe(MountedOn(k.Start(), k.Temp() + k.S(), k.content).tree, k.Temp(), "src") && Skips(k, true, true)
  {
    TmpIsElsewhere(k.parent, k.place);
    TmpValid(k);
    SrcAndDst(k);
    LinkedLosesItsCheck(k);
  }

  lemma TmpValid(k: Setting)
    requires k.before.tree == LinkedTmp() && k.before.mounts == [] && k.parent == ["tmp"] && k.place == ["var", "tmp"]
    requires Plain([k.name]) && k.content.tree == map[[] := NEW_DIR]
    ensures k.Valid()
  {
    LinkResolves(k.before.tree);
    TmpIsPlain(k.parent, k.name);
    TmpIsElsewhere(k.parent, k.place);
    NothingThree(k.before.tree, k.place, k.name);
    EmptyIsWellFormed(k.content.tree);
  }

  lemma SrcAndDst(k: Setting)
    requires k.source == "src" && k.destination == "dst"
    ensures k.BothAccepted() && |k.S()| == 1
  {
    NameIsClean("src");
    NameIsClean("dst");
  }

  lemma TmpIsPlain(parent: Path, name: Name)
    requires parent == ["tmp"] && Plain([name])
    ensures Plain(parent + [name])
  {
    assert name == [name][0];
    assert forall i | 0 <= i < 2 :: (parent + [name])[i] == if i == 0 then "tmp" else name;
  }

  lemma TmpWellFormed(t: Tree)
    requires t == LinkedTmp()
    ensures WellFormed(t)
  {
    assert Parent(["var", "tmp"]) == ["var"] && Parent(["var"]) == [] && Parent(["tmp"]) == [];
    assert forall x | x in t :: x == [] || x == ["var"] || x == ["var", "tmp"] || x == ["tmp"];
  }

  lemma LinkResolves(t: Tree)
    requires t == LinkedTmp()
    ensures WellFormed(t) && Resolve(t, ["tmp"], true) == At(["var", "tmp"])
  {
    TmpWellFormed(t);
    VarTmp();
    assert [] + ["tmp"] == ["tmp"] && ["tmp"][1..] == [];
    assert ["var", "tmp"] + [] == ["var", "tmp"];
    assert Walk(t, ["var", "tmp"], [], true, 39) == At(["var", "tmp"]);
    assert ["var"] + ["tmp"] == ["var", "tmp"] && ["tmp"][1..] == [];
    assert Walk(t, ["var"], ["tmp"], true, 39) == At(["var", "tmp"]);
    assert [] + ["var"] == ["var"] && ["var", "tmp"][1..] == ["tmp"];
    assert Walk(t, [], ["var", "tmp"], true, 39) == At(["var", "tmp"]);
  }

  /** In an empty workspace the directory of a single name can be made. */
  lemma SourceCanBeMade(k: Setting)
    requires k.Valid() && k.BothAccepted() && |k.S()| == 1
    ensures MkdirAt(k.Start().tree, k.Temp() + k.S()) == Some(k.Root() + k.S())
  {
    var t := k.Start().tree;
    StartGrows(k);
    PointIsNotMounted(k, k.S());
    assert k.S() == [k.S()[0]];
    OneNamePlace(k, k.Start(), k.S()[0]);
    assert k.Root() + k.S() != k.Root();
  }

  /** With a link of the mounted source at the destination's mount point, both
      checks pass at first and the source is mounted; the destination's
      directory cannot be made, its check fails, and the mount stays. */
  lemma LinkedDestination(k: Setting, link: Name, text: string)
    requires k.Valid() && !k.Linked() && k.BothAccepted() && |k.S()| == 1 && k.D() == k.S() + [link]
    requires [link] in k.content.tree && k.content.tree[[link]] == Link(text)
    ensures Safe(k.Start().tree, k.Temp(), k.source) && Safe(k.Start().tree, k.Temp(), k.destination)
    ensures MkdirAt(k.Start().tree, k.Temp() + k.S()).Some?
    ensures MkdirAt(MountedOn(k.Start(), k.Temp() + k.S(), k.content).tree, k.Temp() + k.D()).None?
    ensures !Safe(MountedOn(k.Start(), k.Temp() + k.S(), k.content).tree, k.Temp(), k.destination)
    ensures Skips(k, true, true)
  {
    EmptyIsSafe(k, k.source);
    EmptyIsSafe(k, k.destination);
    SourceCanBeMade(k);
    SourceOutcome(k);
    LinkHinders(k, link);
    HinderedFails(k, MountedOn(k.Start(), k.Temp() + k.S(), k.content));
    LinkInTheWay(k, link);
  }

  lemma LinkHinders(k: Setting, link: Name)
    requires k.BothAccepted() && |k.S()| == 1 && k.D() == k.S() + [link]
    requires [link] in k.content.tree && k.content.tree[[link]].Link?
    ensures k.Hindered()
  {
    assert k.Rest() == [link] && k.Rest()[..1] == [link];
    assert Hinders(k.content.tree, k.Rest(), 1);
  }

  lemma TakenPlace(t: Tree, path: Path, name: Name, q: Path)
    requires Resolve(t, path, true) == At(q) && q + [name] in t
    ensures MkdirAt(t, path + [name]).None?
  {
    ParentOfChild(path, name);
  }

  /** The directory cannot be made where the link is. */
  lemma LinkInTheWay(k: Setting, link: Name)
    requires k.Valid() && k.BothAccepted() && |k.S()| == 1 && k.D() == k.S() + [link] && [link] in k.content.tree
    requires MkdirAt(k.Start().tree, k.Temp() + k.S()) == Some(k.Root() + k.S())
    ensures MkdirAt(MountedOn(k.Start(), k.Temp() + k.S(), k.content).tree, k.Temp() + k.D()).None?
  {
    var i, path, q := k.Start(), k.Temp() + k.S(), k.Root() + k.S();
    InsideIsPlain(k.source);
    StartGrows(k);
    LeadsToMounted(i, path, k.content);
    assert k.Temp() + k.D() == path + [link];
    GraftLook(Added(i, q).tree, q, k.content.tree, q + [link]);
    assert (q + [link])[|q|..] == [link];
    TakenPlace(MountedOn(i, path, k.content).tree, path, link, q);
  }

  /** Such a run: the names are `src` and `src/link`, and the source holds a
      link of that name. */
  lemma LinkInTheSource(k: Setting)
    requires k.before.tree == map[[] := NEW_DIR, ["tmp"] := NEW_DIR] && k.before.mounts == []
    requires k.parent == ["tmp"] && k.place == ["tmp"] && Plain([k.name])
    requires k.source == "src" && k.destination == "src/link"
    requires k.content.tree == map[[] := NEW_DIR, ["link"] := Link("elsewhere")]
    ensures k.Valid() && k.BothAccepted() && MkdirAt(k.Start().tree, k.Temp() + k.S()).Some?
    ensures !Safe(MountedOn(k.Start(), k.Temp() + k.S(), k.content).tree, k.Temp(), k.destination)
    ensures Skips(k, true, true)
  {
    PlainTmpIsValid(k);
    NameIsClean("src");
    TwoNames("src", "link");
    assert "src" + "/" + "link" == "src/link";
    LinkedDestination(k, "link", "elsewhere");
  }

  lemma TwoNames(a: Name, b: Name)
    requires IsComponent(a) && IsComponent(b)
    ensures Clean(a + "/" + b) == [a, b] && IsLocal(a + "/" + b)
  {
    var text := a + "/" + b;
    assert text == a + ("/" + b) && "" + a == a && "" + b == b && b + "" == b && ("/" + b)[1..] == b;
    NameEnds(a, "/" + b, "");
    NameEnds(b, "", "");
    assert SplitFrom("/" + b, a) == [a] + SplitFrom(b, "");
    assert Components(text) == [a, b];
    assert [a, b][..1] == [a] && [a][..0] == [];
    assert CleanParts([a]) == [a] && CleanParts([a, b]) == [a, b];
    assert text[0] == a[0] && a[0] in a;
  }

  lemma PlainTmpIsValid(k: Setting)
    requires k.before.tree == map[[] := NEW_DIR, ["tmp"] := NEW_DIR] && k.before.mounts == []
    requires k.parent == ["tmp"] && k.place == ["tmp"] && Plain([k.name])
    requires k.content.tree == map[[] := NEW_DIR, ["link"] := Link("elsewhere")]
    ensures k.Valid()
  {
    TmpIsPlain(k.parent, k.name);
    TmpResolves(k.before.tree);
    assert |k.Root()| == 2 && forall x | x in k.before.tree :: |x| <= 1;
    assert Parent(["link"]) == [];
  }

  lemma TmpResolves(t: Tree)
    requires t == map[[] := NEW_DIR, ["tmp"] := NEW_DIR]
    ensures WellFormed(t) && Resolve(t, ["tmp"], true) == At(["tmp"])
  {
    assert Parent(["tmp"]) == [] && forall x | x in t :: x == [] || x == ["tmp"];
    assert [] + ["tmp"] == ["tmp"] && ["tmp"][1..] == [];
    assert Walk(t, ["tmp"], [], true, MAX_LINKS) == At(["tmp"]);
  }
}
