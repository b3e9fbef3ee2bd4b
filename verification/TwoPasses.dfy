/** When a second pass over the same entries has no error, whatever the order
    of both: exactly when nothing the passes cannot change is in the way. */
module TwoPasses {
  import opened Tree
  import opened PathGuard
  import opened Mirror
  import opened Idempotence
  import opened Convergence

  /** How many passes a chunk gets at most: a count of zero or less asks for a
      single one. */
  function Limit(attempts: int): nat {
    if attempts <= 0 then 1 else attempts
  }

  // ---- What no pass gets past at a listed path ----

  /** A node a listed path must not start with. */
  predicate Obstacle(e: Entry, n: Node) {
    match e.kind
    case Directory => n.Link? || (n.Dir? && (!n.trusted || (PublicWritable(n) && !n.sticky)))
    case Regular => n.Link?
    case _ => false
  }

  ghost predicate ObstacleAt(t: Tree, c: Config, e: Entry) {
    e.path != [] && Dst(c, e) in t && Obstacle(e, t[Dst(c, e)])
  }

  ghost predicate Unobstructed(t: Tree, c: Config, plan: Plan) {
    forall r | r in plan :: !ObstacleAt(t, c, plan[r])
  }

  lemma ObstacleStays(t: Tree, c: Config, src: Source, plan: Plan, e: Entry, f: Entry)
    requires ValidConfig(c) && RootReady(t, c) && ValidPlan(plan) && Drawn([e, f], plan)
    requires ObstacleAt(t, c, f)
    ensures ObstacleAt(Route(t, c, src, e).tree, c, f)
  {
    assert e in [e, f] && f in [e, f];
    var u := Route(t, c, src, e).tree;
    var p, g := Dst(c, e), Dst(c, f);
    OwnResult(t, c, src, e);
    DstOrder(c, e, f);
    if u != t {
      if g == p {
        if e.kind.Directory? { DirectoryEdits(t, c, src, e); } else { RegularEdits(t, c, src, e); }
      } else {
        if Above(p, g) { DirectoryEdits(t, c, src, e); AncestorsAreDirs(t, g, p); }
        assert Look(u, g) == Look(t, g);
      }
    }
  }

  lemma ObstacleFails(t: Tree, c: Config, src: Source, e: Entry)
    requires ValidConfig(c) && ValidEntry(e) && RootReady(t, c) && ObstacleAt(t, c, e)
    ensures Route(t, c, src, e).out.Failed?
  {
  }

  lemma {:induction false} ObstacleOutlivesRun(t: Tree, c: Config, src: Source, plan: Plan, list: seq<Entry>, f: Entry)
    requires ValidConfig(c) && RootReady(t, c) && ValidPlan(plan) && Drawn(list, plan) && Drawn([f], plan)
    requires ObstacleAt(t, c, f)
    ensures ObstacleAt(Run(t, c, src, list).tree, c, f)
    ensures f in list ==> !ErrorFree(Run(t, c, src, list).outs)
    decreases |list|
  {
    if list != [] {
      var done, e := list[..|list| - 1], list[|list| - 1];
      assert list == done + [e] && f in [f] && e in list && forall x | x in done :: x in list;
      RunFacts(t, c, src, plan, done);
      ObstacleOutlivesRun(t, c, src, plan, done, f);
      RunLast(t, c, src, done, e);
      ObstacleStays(Run(t, c, src, done).tree, c, src, plan, e, f);
      if f == e { ObstacleFails(Run(t, c, src, done).tree, c, src, f); }
    }
  }

  lemma {:induction false} ChangedSourceFails(t: Tree, c: Config, src: Source, plan: Plan, list: seq<Entry>, f: Entry)
    requires f in list && f.kind.Regular? && f.path in src && !src[f.path].File?
    ensures !ErrorFree(Run(t, c, src, list).outs)
    decreases |list|
  {
    var done, e := list[..|list| - 1], list[|list| - 1];
    assert list == done + [e];
    RunLast(t, c, src, done, e);
    if f != e { ChangedSourceFails(t, c, src, plan, done, f); }
  }

  lemma NoNewObstacle(t: Tree, c: Config, src: Source, plan: Plan, e: Entry, f: Entry)
    requires ValidConfig(c) && RootReady(t, c) && ValidPlan(plan) && Drawn([e, f], plan)
    requires !ObstacleAt(t, c, e) && !ObstacleAt(t, c, f)
    ensures !ObstacleAt(Route(t, c, src, e).tree, c, f)
  {
    assert e in [e, f] && f in [e, f];
    var u := Route(t, c, src, e).tree;
    var p, g := Dst(c, e), Dst(c, f);
    OwnResult(t, c, src, e);
    DstOrder(c, e, f);
    ConfigDirs(c);
    if u != t && g != p && f.path != [] {
      assert Look(u, g) == Look(t, g) || Look(u, g) == Some(NewDir(c)) || g !in u;
    }
  }

  // ---- What no pass changes above a listed path ----

  /** A path below the root that the plan does not list. */
  predicate Stray(c: Config, plan: Plan, q: Path) {
    Above(c.root, q) && !Listed(c, plan, q)
  }

  /** A listed link, or file with a source, lies below `x`: a pass that reaches
      it makes the directories above it, `x` among them. */
  ghost predicate LeafBelow(c: Config, src: Source, plan: Plan, x: Path) {
    exists r | r in plan :: RaisedBy(c, src, plan[r], x)
  }

  ghost predicate RaisedBy(c: Config, src: Source, e: Entry, x: Path) {
    !e.kind.Directory? && Lands(src, e) && Above(x, Dst(c, e))
  }

  /** What a node above an entry has to be like that no pass will change: as
      in `Bearable`, but where nobody else may add to it, what is missing can
      still be made for a leaf. */
  ghost predicate Tolerable(t: Tree, c: Config, src: Source, plan: Plan, e: Entry, q: Path)
    requires q in t && Above(q, Dst(c, e))
  {
    && t[q].Dir?
    && (Demanding(t, c, src, e) ==> Secure(t[q]))
    && (e.kind.Directory? && PublicWritable(t[q]) ==>
          var x := Next(q, Dst(c, e)); IsDir(t, x) || (x !in t && LeafBelow(c, src, plan, x)))
  }

  ghost predicate Passable(t: Tree, c: Config, src: Source, plan: Plan) {
    forall r, q | r in plan && !plan[r].kind.Other? && q in t && Stray(c, plan, q) && Above(q, Dst(c, plan[r])) ::
      Tolerable(t, c, src, plan, plan[r], q)
  }

  /** What is above an entry is either listed as a directory, or expected as it
      was, or as a new directory. */
  lemma AboveIsExpected(t0: Tree, c: Config, src: Source, plan: Plan, e: Entry, q: Path)
    requires ValidPlan(plan) && e.path in plan && plan[e.path] == e
    requires Above(c.root, q) && Above(q, Dst(c, e))
    ensures Listed(c, plan, q) ==> plan[q[|c.root|..]].kind.Directory? && Dst(c, plan[q[|c.root|..]]) == q
    ensures !Listed(c, plan, q) ==> Expected(t0, c, src, plan, q) in {Look(t0, q), Some(NewDir(c))}
    ensures !Listed(c, plan, q) && q in t0 ==> Expected(t0, c, src, plan, q) == Look(t0, q)
  {
    if Listed(c, plan, q) {
      ListedDst(c, plan, q);
      DstOrder(c, plan[q[|c.root|..]], e);
    } else if Buried(c, src, plan, q) {
      var r :| r in plan && !plan[r].kind.Directory? && Lands(src, plan[r]) && Above(Dst(c, plan[r]), q);
      assert Above(Dst(c, plan[r]), Dst(c, e)) by { assert q == Dst(c, e)[..|q|]; }
      DstOrder(c, plan[r], e);
    }
  }

  /** So on the way to the goal it stays, or is a new directory. */
  lemma StrayStays(t0: Tree, t: Tree, c: Config, src: Source, plan: Plan, e: Entry, q: Path)
    requires ValidPlan(plan) && Between(t0, t, c, src, plan) && e.path in plan && plan[e.path] == e
    requires Stray(c, plan, q) && Above(q, Dst(c, e))
    ensures q in t0 ==> Look(t, q) == Look(t0, q)
    ensures q !in t0 && q in t ==> t[q] == NewDir(c)
  {
    AboveIsExpected(t0, c, src, plan, e, q);
    assert OnTheWay(Look(t0, q), Look(t, q), Expected(t0, c, src, plan, q));
  }

  /** A directory above an entry stays one, and what was missing becomes one. */
  lemma DirStays(t0: Tree, t: Tree, c: Config, src: Source, plan: Plan, e: Entry, q: Path)
    requires ValidPlan(plan) && Between(t0, t, c, src, plan) && e.path in plan && plan[e.path] == e
    requires Above(c.root, q) && Above(q, Dst(c, e)) && (q in t0 ==> t0[q].Dir?)
    ensures q in t ==> t[q].Dir?
    ensures q in t0 ==> IsDir(t, q)
  {
    AboveIsExpected(t0, c, src, plan, e, q);
    assert OnTheWay(Look(t0, q), Look(t, q), Expected(t0, c, src, plan, q));
  }

  /** So does a listed directory. */
  lemma ListedDirStays(t0: Tree, t: Tree, c: Config, src: Source, plan: Plan, e: Entry)
    requires ValidPlan(plan) && Between(t0, t, c, src, plan) && e.path in plan && plan[e.path] == e
    requires e.kind.Directory? && IsDir(t0, Dst(c, e))
    ensures IsDir(t, Dst(c, e))
  {
    ListedAt(c, plan, e);
    var q := Dst(c, e);
    assert OnTheWay(Look(t0, q), Look(t, q), Expected(t0, c, src, plan, q));
  }

  /** What is up to date at the start stays so. */
  lemma DemandsWereThere(t0: Tree, t: Tree, c: Config, src: Source, plan: Plan, e: Entry)
    requires ValidPlan(plan) && Between(t0, t, c, src, plan) && e.path in plan && plan[e.path] == e
    requires Demanding(t, c, src, e)
    ensures Demanding(t0, c, src, e)
  {
    ListedAt(c, plan, e);
    var p := Dst(c, e);
    assert OnTheWay(Look(t0, p), Look(t, p), Expected(t0, c, src, plan, p));
  }

  // ---- The first pass ----

  /** A listed directory path is safe or still missing. */
  ghost predicate Prepared(t: Tree, c: Config, e: Entry) {
    e.kind.Directory? && e.path != [] && Dst(c, e) in t ==> SafeDir(t[Dst(c, e)])
  }

  lemma ListedIsSecure(t: Tree, c: Config, plan: Plan, r: Path)
    requires ValidPlan(plan) && Unobstructed(t, c, plan) && r in plan && plan[r].kind.Directory? && r != []
    requires IsDir(t, Dst(c, plan[r]))
    ensures Secure(t[Dst(c, plan[r])])
  {
    assert !ObstacleAt(t, c, plan[r]);
  }

  /** Above and at a listed directory that exists, everything is secure. */
  lemma WayIsSecure(t0: Tree, t: Tree, c: Config, src: Source, plan: Plan, e: Entry, q: Path)
    requires ValidConfig(c) && RootReady(t, c) && ValidPlan(plan) && Between(t0, t, c, src, plan)
    requires Unobstructed(t, c, plan) && Passable(t0, c, src, plan)
    requires e.path in plan && plan[e.path] == e && e.kind.Directory? && e.path != []
    requires q != [] && Upto(q, Dst(c, e)) && IsDir(t, q)
    ensures Secure(t[q])
  {
    var p := Dst(c, e);
    DstParent(c, e);
    ConfigDirs(c);
    if |q| <= |c.root| {
      PrefixesCompare(p, q, c.root);
    } else {
      PrefixesCompare(p, c.root, q);
      assert Above(c.root, q);
      if q == p {
        ListedIsSecure(t, c, plan, e.path);
      } else if Listed(c, plan, q) {
        AboveIsExpected(t0, c, src, plan, e, q);
        ListedIsSecure(t, c, plan, q[|c.root|..]);
      } else {
        StrayStays(t0, t, c, src, plan, e, q);
        if q in t0 { assert Tolerable(t0, c, src, plan, e, q); }
      }
    }
  }

  /** One visit prepares a directory even when it reports an error. */
  lemma VisitPrepares(t0: Tree, t: Tree, c: Config, src: Source, plan: Plan, e: Entry)
    requires ValidConfig(c) && RootReady(t, c) && ValidPlan(plan) && Between(t0, t, c, src, plan)
    requires Unobstructed(t, c, plan) && Passable(t0, c, src, plan) && e.path in plan && plan[e.path] == e
    ensures Prepared(Route(t, c, src, e).tree, c, e)
  {
    if e.kind.Directory? && e.path != [] {
      var p := Dst(c, e);
      DstParent(c, e);
      ConfigDirs(c);
      DirectoryEdits(t, c, src, e);
      if p in t {
        assert !ObstacleAt(t, c, plan[e.path]);
        forall q | q in t && Above(q, p) ensures t[q].Dir? { AncestorsAreDirs(t, p, q); }
        forall q | q in t && q != [] && Upto(q, p) && t[q].Dir? ensures Secure(t[q]) {
          WayIsSecure(t0, t, c, src, plan, e, q);
        }
        forall q ensures Upto(q, Parent(p)) ==> Above(q, p) && Upto(q, p) { PrefixOfParent(p, q); }
        PrefixOfParent(p, Parent(p));
        forall q | q in t && Above(q, Parent(p)) ensures t[q].Dir? { AncestorsAreDirs(t, Parent(p), q); }
        PrivateAt(t, Parent(p));
        if t[p].Dir? {
          DirectoryKept(t, c, p);
          PrivateAt(t, p);
          assert MakeDirs(t, p, DirPerm(c)) == t;
        } else {
          assert Route(t, c, src, e).tree != t by { DirectoryClears(t, c, p); }
        }
      }
    }
  }

  lemma DirectoryClears(t: Tree, c: Config, p: Path)
    requires WellFormed(t) && p in t && t[p].File? && p != [] && p != c.root && Private(t, Parent(p), true)
    ensures !(p in MakeDirectory(t, c, p).tree && MakeDirectory(t, c, p).tree[p].File?)
  {
  }

  lemma PreparedStays(t: Tree, c: Config, src: Source, plan: Plan, e: Entry, f: Entry)
    requires ValidConfig(c) && RootReady(t, c) && ValidPlan(plan) && Drawn([e, f], plan)
    requires Prepared(t, c, f) && (e == f ==> Prepared(Route(t, c, src, e).tree, c, f))
    ensures Prepared(Route(t, c, src, e).tree, c, f)
  {
    assert e in [e, f] && f in [e, f];
    var u := Route(t, c, src, e).tree;
    OwnResult(t, c, src, e);
    DstOrder(c, e, f);
    if u != t && e != f && Dst(c, f) in u {
      ElsewhereIsOldOrSafe(t, u, c, Dst(c, e), Dst(c, f));
    }
  }

  /** The leaf has made `x`, if that was the first missing directory above it. */
  ghost predicate Raised(t0: Tree, t: Tree, c: Config, src: Source, e: Entry) {
    forall x | RaisedBy(c, src, e, x) && Above(c.root, x) && x !in t0 && IsDir(t0, Parent(x)) :: IsDir(t, x)
  }

  /** In the way of such a leaf there is nothing but directories. */
  lemma WayIsOpen(t0: Tree, t: Tree, c: Config, src: Source, plan: Plan, e: Entry, x: Path, q: Path)
    requires RootReady(t0, c) && RootReady(t, c) && ValidPlan(plan) && Between(t0, t, c, src, plan)
    requires e.path in plan && plan[e.path] == e && RaisedBy(c, src, e, x) && Above(c.root, x)
    requires x !in t0 && IsDir(t0, Parent(x)) && q in t && Above(q, Dst(c, e))
    ensures t[q].Dir?
  {
    var p := Dst(c, e);
    if |q| <= |c.root| {
      PrefixesCompare(p, q, c.root);
      if q != c.root { AncestorsAreDirs(t, c.root, q); }
    } else {
      assert Upto(c.root, p) by { assert p[..|c.root|] == c.root; }
      PrefixesCompare(p, c.root, q);
      if q in t0 {
        if |q| < |x| {
          PrefixesCompare(p, q, x);
          PrefixOfParent(x, q);
          if q != Parent(x) { AncestorsAreDirs(t0, Parent(x), q); }
        } else {
          PrefixesCompare(p, x, q);
          if q != x { AncestorsAreDirs(t0, q, x); }
        }
      }
      DirStays(t0, t, c, src, plan, e, q);
    }
  }

  lemma VisitRaises(t0: Tree, t: Tree, c: Config, src: Source, plan: Plan, e: Entry)
    requires ValidConfig(c) && RootReady(t0, c) && RootReady(t, c) && ValidPlan(plan) && Between(t0, t, c, src, plan)
    requires e.path in plan && plan[e.path] == e
    ensures Raised(t0, Route(t, c, src, e).tree, c, src, e)
  {
    var u := Route(t, c, src, e).tree;
    forall x | RaisedBy(c, src, e, x) && Above(c.root, x) && x !in t0 && IsDir(t0, Parent(x)) ensures IsDir(u, x) {
      forall q | q in t && Above(q, Dst(c, e)) ensures t[q].Dir? {
        WayIsOpen(t0, t, c, src, plan, e, x, q);
      }
      LeafRaises(t, c, src, e, x);
    }
  }

  lemma LeafRaises(t: Tree, c: Config, src: Source, e: Entry, x: Path)
    requires ValidConfig(c) && ValidEntry(e) && RootReady(t, c) && RaisedBy(c, src, e, x) && Above(c.root, x)
    requires forall q | q in t && Above(q, Dst(c, e)) :: t[q].Dir?
    ensures IsDir(Route(t, c, src, e).tree, x)
  {
    var p := Dst(c, e);
    var u := Route(t, c, src, e).tree;
    assert e.path != [];
    DstParent(c, e);
    if p in t {
      AncestorsAreDirs(t, p, x);
      OwnResult(t, c, src, e);
      assert Look(u, x) == Look(t, x);
    } else {
      forall q ensures Upto(q, Parent(p)) <==> Above(q, p) { PrefixOfParent(p, q); }
      assert Unlinked(t, Parent(p)) && Unlinked(t, p) && !FileAbove(t, p) by {
        forall q | q in t && Above(q, Parent(p)) ensures t[q].Dir? { assert Upto(q, Parent(p)); }
        if Parent(p) in t { assert Upto(Parent(p), Parent(p)); }
      }
      ParentsMade(t, c, e, Link(""));
      var ready := WithParents(t, c, p);
      assert IsDir(ready, x) by { assert Look(ready, x) == if x !in t then Some(NewDir(c)) else Look(t, x); }
    }
  }

  lemma RaisedStays(t0: Tree, t: Tree, c: Config, src: Source, plan: Plan, e: Entry, f: Entry)
    requires ValidConfig(c) && RootReady(t, c) && ValidPlan(plan) && Drawn([e, f], plan) && Raised(t0, t, c, src, f)
    ensures Raised(t0, Route(t, c, src, e).tree, c, src, f)
  {
    assert e in [e, f] && f in [e, f];
    var u := Route(t, c, src, e).tree;
    OwnResult(t, c, src, e);
    forall x | RaisedBy(c, src, f, x) && Above(c.root, x) && x !in t0 && IsDir(t0, Parent(x)) ensures IsDir(u, x) {
      if u != t { DirAboveStays(t, c, src, plan, e, f, x); }
    }
  }

  /** A directory above a listed leaf is never taken away. */
  lemma DirAboveStays(t: Tree, c: Config, src: Source, plan: Plan, e: Entry, f: Entry, x: Path)
    requires ValidConfig(c) && RootReady(t, c) && ValidPlan(plan) && Drawn([e, f], plan)
    requires IsDir(t, x) && Above(x, Dst(c, f))
    ensures IsDir(Route(t, c, src, e).tree, x)
  {
    assert e in [e, f] && f in [e, f];
    var u := Route(t, c, src, e).tree;
    var p := Dst(c, e);
    OwnResult(t, c, src, e);
    if u != t {
      if Upto(p, x) {
        assert Above(p, Dst(c, f)) by { assert p == x[..|p|] == Dst(c, f)[..|p|]; }
        DstOrder(c, e, f);
        DirectoryEdits(t, c, src, e);
        if p != x { AncestorsAreDirs(t, x, p); }
      } else {
        assert p != x && !Above(p, x);
      }
    }
  }

  /** What a pass leaves behind for the entries it has visited. */
  ghost predicate Readied(t0: Tree, t: Tree, c: Config, src: Source, e: Entry) {
    Prepared(t, c, e) && Raised(t0, t, c, src, e)
  }

  lemma {:induction false} FirstPassReadies(t: Tree, c: Config, src: Source, plan: Plan, list: seq<Entry>)
    requires ValidConfig(c) && RootReady(t, c) && ValidPlan(plan) && Drawn(list, plan)
    requires Unobstructed(t, c, plan) && Passable(t, c, src, plan)
    ensures var u := Run(t, c, src, list).tree;
      && RootReady(u, c) && Between(t, u, c, src, plan) && Unobstructed(u, c, plan)
      && forall e | e in list :: Readied(t, u, c, src, e)
    decreases |list|
  {
    if list == [] {
      assert Between(t, t, c, src, plan);
    } else {
      var done, e := list[..|list| - 1], list[|list| - 1];
      var before := Run(t, c, src, done).tree;
      assert list == done + [e];
      assert e in list && forall f | f in done :: f in list;
      FirstPassReadies(t, c, src, plan, done);
      RouteFrame(before, c, src, e);
      BetweenStays(t, before, c, src, plan, e);
      VisitPrepares(t, before, c, src, plan, e);
      VisitRaises(t, before, c, src, plan, e);
      VisitKeepsRest(t, before, c, src, plan, done, e);
    }
  }

  /** One more entry adds no obstacle and undoes nothing. */
  lemma VisitKeepsRest(t0: Tree, t: Tree, c: Config, src: Source, plan: Plan, done: seq<Entry>, e: Entry)
    requires ValidConfig(c) && RootReady(t, c) && ValidPlan(plan) && Drawn(done + [e], plan) && Unobstructed(t, c, plan)
    requires Readied(t0, Route(t, c, src, e).tree, c, src, e) && forall f | f in done :: Readied(t0, t, c, src, f)
    ensures Unobstructed(Route(t, c, src, e).tree, c, plan)
    ensures forall f | f in done + [e] :: Readied(t0, Route(t, c, src, e).tree, c, src, f)
  {
    assert e in done + [e];
    forall r | r in plan ensures !ObstacleAt(Route(t, c, src, e).tree, c, plan[r]) {
      NoNewObstacle(t, c, src, plan, e, plan[r]);
    }
    forall f | f in done ensures Readied(t0, Route(t, c, src, e).tree, c, src, f) {
      assert f in done + [e];
      PreparedStays(t, c, src, plan, e, f);
      RaisedStays(t0, t, c, src, plan, e, f);
    }
  }

  // ---- The second pass ----

  lemma ReadiedIsFit(t0: Tree, t: Tree, c: Config, src: Source, plan: Plan)
    requires ValidConfig(c) && RootReady(t, c) && ValidPlan(plan) && Between(t0, t, c, src, plan)
    requires Unobstructed(t, c, plan) && Passable(t0, c, src, plan)
    requires forall r | r in plan :: Readied(t0, t, c, src, plan[r])
    ensures Fit(t, c, src, plan)
  {
    forall r | r in plan && !plan[r].kind.Other? ensures FitAt(t, c, src, plan[r]) {
      var e := plan[r];
      forall q | q in t && Above(c.root, q) && Above(q, Dst(c, e)) ensures Bearable(t, c, src, e, q) {
        ReadiedIsBearable(t0, t, c, src, plan, e, q);
      }
      assert !ObstacleAt(t, c, e) && Prepared(t, c, e);
      if e.path == [] { assert e.kind.Directory?; }
    }
  }

  lemma ReadiedIsBearable(t0: Tree, t: Tree, c: Config, src: Source, plan: Plan, e: Entry, q: Path)
    requires ValidConfig(c) && ValidPlan(plan) && Between(t0, t, c, src, plan) && Passable(t0, c, src, plan)
    requires forall r | r in plan :: Readied(t0, t, c, src, plan[r])
    requires e.path in plan && plan[e.path] == e && !e.kind.Other?
    requires q in t && Above(c.root, q) && Above(q, Dst(c, e))
    ensures Bearable(t, c, src, e, q)
  {
    ConfigDirs(c);
    AboveIsExpected(t0, c, src, plan, e, q);
    if Listed(c, plan, q) {
      assert Prepared(t, c, plan[q[|c.root|..]]);
      assert plan[q[|c.root|..]].path != [];
    } else {
      StrayStays(t0, t, c, src, plan, e, q);
      if q in t0 {
        assert Tolerable(t0, c, src, plan, e, q);
        if Demanding(t, c, src, e) { DemandsWereThere(t0, t, c, src, plan, e); }
        if e.kind.Directory? && PublicWritable(t[q]) { NextIsThere(t0, t, c, src, plan, e, q); }
      }
    }
  }

  lemma NextIsThere(t0: Tree, t: Tree, c: Config, src: Source, plan: Plan, e: Entry, q: Path)
    requires ValidPlan(plan) && Between(t0, t, c, src, plan) && e.path in plan && plan[e.path] == e && e.kind.Directory?
    requires forall r | r in plan :: Readied(t0, t, c, src, plan[r])
    requires q in t0 && Above(c.root, q) && Above(q, Dst(c, e))
    requires Tolerable(t0, c, src, plan, e, q) && PublicWritable(t0[q])
    ensures IsDir(t, Next(q, Dst(c, e)))
  {
    var x := Next(q, Dst(c, e));
    if IsDir(t0, x) {
      if x == Dst(c, e) {
        ListedDirStays(t0, t, c, src, plan, e);
      } else {
        DirStays(t0, t, c, src, plan, e, x);
      }
    } else {
      var r :| r in plan && RaisedBy(c, src, plan[r], x);
      assert Readied(t0, t, c, src, plan[r]);
    }
  }

  /** Two passes, each in any order, reach the expected tree of the start. */
  lemma TwoPassesReachGoal(t: Tree, c: Config, src: Source, plan: Plan, first: seq<Entry>, second: seq<Entry>)
    requires ValidConfig(c) && RootReady(t, c) && ValidPlan(plan) && SourceStable(src, plan)
    requires Unobstructed(t, c, plan) && Passable(t, c, src, plan) && Covers(first, plan) && Covers(second, plan)
    ensures var again := Run(Run(t, c, src, first).tree, c, src, second);
            ErrorFree(again.outs) && forall q :: Look(again.tree, q) == Expected(t, c, src, plan, q)
  {
    var u := Run(t, c, src, first).tree;
    FirstPassReadies(t, c, src, plan, first);
    ReadiedIsFit(t, u, c, src, plan);
    FitPassReachesGoal(u, c, src, plan, second);
    forall q ensures Expected(u, c, src, plan, q) == Expected(t, c, src, plan, q) {
      ExpectedIsStable(t, u, c, src, plan, q);
    }
  }

  // ---- Lists that contain the parents ----

  ghost predicate ParentClosed(plan: Plan) {
    forall r | r in plan && r != [] :: Parent(r) in plan
  }

  lemma {:induction false} PrefixIsListed(plan: Plan, r: Path, k: nat)
    requires ParentClosed(plan) && r in plan && k <= |r|
    ensures r[..k] in plan
    decreases |r| - k
  {
    if k < |r| {
      PrefixIsListed(plan, r, k + 1);
      assert r[..k + 1] != [] && Parent(r[..k + 1]) == r[..k];
    } else {
      assert r[..k] == r;
    }
  }

  /** Above a listed path such a list leaves nothing out. */
  lemma NoStrays(c: Config, plan: Plan, r: Path, q: Path)
    requires ValidPlan(plan) && ParentClosed(plan) && r in plan && Above(q, Dst(c, plan[r]))
    ensures !Stray(c, plan, q)
  {
    if Above(c.root, q) {
      var k := |q| - |c.root|;
      assert q[|c.root|..] == r[..k];
      PrefixIsListed(plan, r, k);
    }
  }

  lemma ParentClosedIsPassable(t: Tree, c: Config, src: Source, plan: Plan)
    requires ValidPlan(plan) && ParentClosed(plan)
    ensures Passable(t, c, src, plan)
  {
    forall r, q | r in plan && q in t && Above(q, Dst(c, plan[r])) ensures !Stray(c, plan, q) {
      NoStrays(c, plan, r, q);
    }
  }

  // ---- What no pass gets past above a listed path ----

  /** `q` keeps every pass from handling the entry. */
  ghost predicate Hopeless(t: Tree, c: Config, src: Source, plan: Plan, e: Entry, q: Path) {
    && !e.kind.Other? && q in t && Stray(c, plan, q) && Above(q, Dst(c, e))
    && (|| !t[q].Dir?
        || (Demanding(t, c, src, e) && !Secure(t[q]))
        || (e.kind.Directory? && OpenAbove(t, q, Dst(c, e)) && !LeafBelow(c, src, plan, Next(q, Dst(c, e)))))
  }

  /** Others may add to `q`, and what comes next on the way is no directory. */
  predicate OpenAbove(t: Tree, q: Path, p: Path)
    requires Above(q, p)
  {
    IsDir(t, q) && PublicWritable(t[q]) && !IsDir(t, Next(q, p))
  }

  lemma HopelessFails(t: Tree, c: Config, src: Source, plan: Plan, e: Entry, q: Path)
    requires ValidConfig(c) && ValidEntry(e) && RootReady(t, c) && Hopeless(t, c, src, plan, e, q)
    ensures Route(t, c, src, e).out.Failed?
  {
    var p := Dst(c, e);
    assert e.path != [];
    DstParent(c, e);
    PrefixOfParent(p, q);
    if !t[q].Dir? {
      if q != Parent(p) {
        PrefixOfParent(p, Parent(p));
        assert Above(q, Parent(p)) by { assert Upto(q, Parent(p)); }
      } else if t[q].File? {
        assert FileAbove(t, p);
      }
    } else if Demanding(t, c, src, e) && !Secure(t[q]) {
      InsecureFails(t, c, src, e, q);
    } else {
      OpenFails(t, c, e, q);
    }
  }

  lemma InsecureFails(t: Tree, c: Config, src: Source, e: Entry, q: Path)
    requires ValidConfig(c) && ValidEntry(e) && RootReady(t, c) && e.path != [] && !e.kind.Other?
    requires IsDir(t, q) && q != [] && Above(q, Dst(c, e)) && Demanding(t, c, src, e) && !Secure(t[q])
    ensures Route(t, c, src, e).out.Failed?
  {
    var p := Dst(c, e);
    PrefixOfParent(p, q);
    assert Upto(q, Parent(p)) && !(p <= q);
    MakeDirsLook(t, Parent(p), DirPerm(c));
    var made := WithParents(t, c, p);
    if Parent(p) !in t { assert Look(made, q) == Look(t, q); }
    assert Look(RemoveTree(t, p), q) == Look(t, q);
  }

  /** A directory cannot be made where others may add to the one above. */
  lemma OpenFails(t: Tree, c: Config, e: Entry, q: Path)
    requires ValidConfig(c) && ValidEntry(e) && RootReady(t, c) && e.kind.Directory? && q != []
    requires Above(c.root, q) && Above(q, Dst(c, e)) && OpenAbove(t, q, Dst(c, e))
    ensures var s := Route(t, c, map[], e);
      s.out.Failed? && (s.tree == t || (Dst(c, e) in t && s.tree == RemoveTree(t, Dst(c, e))))
  {
    var p := Dst(c, e);
    var x := Next(q, p);
    assert p != c.root;
    if p in t && t[p].Dir? && x != p { AncestorsAreDirs(t, p, x); }
    if Unlinked(t, p) {
      if x in t { assert x == p; }
      var cleared := if p in t && !t[p].Dir? then RemoveTree(t, p) else t;
      assert p !in cleared && Look(cleared, q) == Look(t, q) && x !in cleared;
      assert Edge(cleared, q, p);
    }
  }

  /** It stays hopeless, whatever entry is handled. */
  lemma HopelessStays(t: Tree, c: Config, src: Source, plan: Plan, e: Entry, q: Path, f: Entry)
    requires ValidConfig(c) && RootReady(t, c) && ValidPlan(plan) && Drawn([e, f], plan)
    requires Hopeless(t, c, src, plan, e, q)
    ensures Hopeless(Route(t, c, src, f).tree, c, src, plan, e, q)
  {
    assert e in [e, f] && f in [e, f];
    var u := Route(t, c, src, f).tree;
    assert Between(t, t, c, src, plan);
    assert Drawn([f], plan);
    BetweenStays(t, t, c, src, plan, f);
    StrayStays(t, u, c, src, plan, e, q);
    if t[q].Dir? {
      if Demanding(t, c, src, e) && !Secure(t[q]) {
        HopelessFails(t, c, src, plan, e, q);
        DemandsOutlast(t, c, src, plan, e, f);
      } else {
        OpenStays(t, c, src, plan, e, q, f);
      }
    }
  }

  /** A demand that fails is still there afterwards. */
  lemma DemandsOutlast(t: Tree, c: Config, src: Source, plan: Plan, e: Entry, f: Entry)
    requires ValidConfig(c) && RootReady(t, c) && ValidPlan(plan) && Drawn([e, f], plan)
    requires Demanding(t, c, src, e) && Route(t, c, src, e).out.Failed?
    ensures Demanding(Route(t, c, src, f).tree, c, src, e)
  {
    assert e in [e, f] && f in [e, f];
    var u := Route(t, c, src, f).tree;
    var p := Dst(c, e);
    OwnResult(t, c, src, f);
    DstOrder(c, f, e);
    DstOrder(c, e, f);
    if !e.kind.Directory? {
      if e == f {
        if e.kind.Symlink? { LinkEdits(t, c, src, e); } else { RegularEdits(t, c, src, e); }
      } else {
        assert Look(u, p) == Look(t, p) || Look(u, p).None?;
      }
    }
  }

  lemma OpenStays(t: Tree, c: Config, src: Source, plan: Plan, e: Entry, q: Path, f: Entry)
    requires ValidConfig(c) && RootReady(t, c) && ValidPlan(plan) && Drawn([e, f], plan)
    requires e.kind.Directory? && Stray(c, plan, q) && Above(q, Dst(c, e)) && OpenAbove(t, q, Dst(c, e))
    requires !LeafBelow(c, src, plan, Next(q, Dst(c, e)))
    requires Look(Route(t, c, src, f).tree, q) == Look(t, q)
    ensures OpenAbove(Route(t, c, src, f).tree, q, Dst(c, e))
  {
    assert e in [e, f] && f in [e, f];
    var u := Route(t, c, src, f).tree;
    var p, g := Dst(c, e), Dst(c, f);
    var x := Next(q, p);
    OwnResult(t, c, src, f);
    if u != t {
      if Upto(x, g) {
        assert Above(q, g) && Next(q, g) == x;
        if x == g {
          DstOrder(c, f, e);
          assert f.kind.Directory?;
        } else {
          assert !RaisedBy(c, src, plan[f.path], x);
        }
        OpenFails(t, c, f, q);
        assert Route(t, c, src, f) == Route(t, c, map[], f);
      }
    }
  }

  lemma {:induction false} HopelessOutlivesRun(t: Tree, c: Config, src: Source, plan: Plan, list: seq<Entry>,
                                               e: Entry, q: Path)
    requires ValidConfig(c) && RootReady(t, c) && ValidPlan(plan) && Drawn(list, plan) && Drawn([e], plan)
    requires Hopeless(t, c, src, plan, e, q)
    ensures Hopeless(Run(t, c, src, list).tree, c, src, plan, e, q)
    ensures e in list ==> !ErrorFree(Run(t, c, src, list).outs)
    decreases |list|
  {
    if list != [] {
      var done, f := list[..|list| - 1], list[|list| - 1];
      assert list == done + [f] && e in [e] && f in list && forall x | x in done :: x in list;
      RunFacts(t, c, src, plan, done);
      HopelessOutlivesRun(t, c, src, plan, done, e, q);
      RunLast(t, c, src, done, f);
      HopelessStays(Run(t, c, src, done).tree, c, src, plan, e, q, f);
      if e == f { HopelessFails(Run(t, c, src, done).tree, c, src, plan, e, q); }
    }
  }

  /** A list without the parents can be blocked although none of its own paths
      is: here a file, not listed, is where the parent should be. */
  lemma UnlistedFileBlocks(c: Config, src: Source, t: Tree, plan: Plan, e: Entry)
    requires ValidConfig(c) && c.root == ["dst"]
    requires t == map[[] := NewDir(c), ["dst"] := NewDir(c), ["dst", "a"] := File([], 0x180, 0)]
    requires e.path == ["a", "b"] && e.kind.Directory? && plan == map[["a", "b"] := e]
    ensures RootReady(t, c) && ValidPlan(plan) && !ParentClosed(plan)
    ensures Unobstructed(t, c, plan) && SourceStable(src, plan) && Blocked(t, c, src, plan)
  {
    var q := ["dst", "a"];
    ConfigDirs(c);
    assert Dst(c, e) == ["dst", "a", "b"] && Parent(q) == ["dst"] && Parent(["dst"]) == [];
    assert q == Dst(c, e)[..2] && c.root == q[..1] && q[1..] == ["a"];
    assert |e.path| == 2 && Parent(e.path) == ["a"] && ["a"] !in plan;
    assert plan[["a", "b"]] == e && Hopeless(t, c, src, plan, plan[["a", "b"]], q);
  }

  // ---- Exactly when two passes are enough ----

  /** Something no number of passes gets past. */
  ghost predicate Blocked(t: Tree, c: Config, src: Source, plan: Plan) {
    || !Unobstructed(t, c, plan) || !SourceStable(src, plan)
    || exists r, q :: r in plan && Hopeless(t, c, src, plan, plan[r], q)
  }

  /** Nothing is in the way that passes cannot change. */
  ghost predicate Finishable(t: Tree, c: Config, src: Source, plan: Plan) {
    Unobstructed(t, c, plan) && SourceStable(src, plan) && Passable(t, c, src, plan)
  }

  lemma BlockedOutlivesRun(t: Tree, c: Config, src: Source, plan: Plan, list: seq<Entry>)
    requires ValidConfig(c) && RootReady(t, c) && ValidPlan(plan) && Covers(list, plan) && Blocked(t, c, src, plan)
    ensures !ErrorFree(Run(t, c, src, list).outs) && Blocked(Run(t, c, src, list).tree, c, src, plan)
  {
    if !Unobstructed(t, c, plan) {
      var r :| r in plan && ObstacleAt(t, c, plan[r]);
      ObstacleOutlivesRun(t, c, src, plan, list, plan[r]);
    } else if !SourceStable(src, plan) {
      var r :| r in plan && plan[r].kind.Regular? && r in src && !src[r].File?;
      ChangedSourceFails(t, c, src, plan, list, plan[r]);
    } else {
      var r, q :| r in plan && Hopeless(t, c, src, plan, plan[r], q);
      HopelessOutlivesRun(t, c, src, plan, list, plan[r], q);
    }
  }

  /** With the parents listed, the one is the contrary of the other. */
  lemma ParentClosedDecides(t: Tree, c: Config, src: Source, plan: Plan)
    requires ValidPlan(plan) && ParentClosed(plan)
    ensures Blocked(t, c, src, plan) <==> !Finishable(t, c, src, plan)
    ensures Blocked(t, c, src, plan) <==> !Unobstructed(t, c, plan) || !SourceStable(src, plan)
  {
    ParentClosedIsPassable(t, c, src, plan);
    if r, q :| r in plan && Hopeless(t, c, src, plan, plan[r], q) {
      NoStrays(c, plan, r, q);
    }
  }

  /** For such a list, a retried chunk ends without error exactly when no listed
      path started with an obstacle and no listed regular file became something
      else, whatever the two orders. */
  lemma SecondPassIsErrorFreeIff(t: Tree, c: Config, src: Source, plan: Plan, first: seq<Entry>, second: seq<Entry>)
    requires ValidConfig(c) && RootReady(t, c) && ValidPlan(plan) && ParentClosed(plan)
    requires Covers(first, plan) && Covers(second, plan)
    ensures ErrorFree(Run(Run(t, c, src, first).tree, c, src, second).outs)
            <==> Unobstructed(t, c, plan) && SourceStable(src, plan)
  {
    var u := Run(t, c, src, first).tree;
    RunFacts(t, c, src, plan, first);
    ParentClosedDecides(t, c, src, plan);
    if Blocked(t, c, src, plan) {
      BlockedOutlivesRun(t, c, src, plan, first);
      BlockedOutlivesRun(u, c, src, plan, second);
    } else {
      TwoPassesReachGoal(t, c, src, plan, first, second);
    }
  }

  /** A listed directory that starts as a file, directly in one that is not
      listed and open to others: it is taken away before it turns out that it
      cannot be made, and then it depends on the order whether a leaf makes it
      in time. */
  ghost predicate Contested(t: Tree, c: Config, plan: Plan, d: Entry, q: Path) {
    && d.kind.Directory? && d.path in plan && plan[d.path] == d && Stray(c, plan, q) && Above(q, Dst(c, d))
    && Next(q, Dst(c, d)) == Dst(c, d) && OpenAbove(t, q, Dst(c, d)) && Dst(c, d) in t && t[Dst(c, d)].File?
  }

  lemma IntolerableIs(t: Tree, c: Config, src: Source, plan: Plan, e: Entry, q: Path)
    requires !e.kind.Other? && q in t && Stray(c, plan, q) && Above(q, Dst(c, e))
    requires !Tolerable(t, c, src, plan, e, q) && !Hopeless(t, c, src, plan, e, q)
    ensures e.kind.Directory? && OpenAbove(t, q, Dst(c, e)) && Next(q, Dst(c, e)) in t
  {
  }

  lemma ContestedIs(t: Tree, c: Config, src: Source, plan: Plan, e: Entry, q: Path)
      returns (d: Entry)
    requires ValidPlan(plan) && Unobstructed(t, c, plan) && e.path in plan && plan[e.path] == e && e.kind.Directory?
    requires Stray(c, plan, q) && Above(q, Dst(c, e)) && OpenAbove(t, q, Dst(c, e)) && Next(q, Dst(c, e)) in t
    requires !Stray(c, plan, Next(q, Dst(c, e)))
    ensures Contested(t, c, plan, d, q)
  {
    var x := Next(q, Dst(c, e));
    d := e;
    if x != Dst(c, e) {
      assert Above(x, Dst(c, e)) && Above(c.root, x);
      AboveIsExpected(t, c, src, plan, e, x);
      d := plan[x[|c.root|..]];
    }
    assert !ObstacleAt(t, c, plan[d.path]);
  }

  lemma ImpassableIs(t: Tree, c: Config, src: Source, plan: Plan)
    requires ValidPlan(plan) && Unobstructed(t, c, plan) && !Passable(t, c, src, plan)
    ensures (exists r, q :: r in plan && Hopeless(t, c, src, plan, plan[r], q))
            || exists d, q :: Contested(t, c, plan, d, q)
  {
    var r, q :| r in plan && !plan[r].kind.Other? && q in t && Stray(c, plan, q) && Above(q, Dst(c, plan[r]))
                && !Tolerable(t, c, src, plan, plan[r], q);
    if !Hopeless(t, c, src, plan, plan[r], q) {
      IntolerableIs(t, c, src, plan, plan[r], q);
      var x := Next(q, Dst(c, plan[r]));
      if Stray(c, plan, x) {
        StrayIsHopeless(t, c, src, plan, plan[r], x);
      } else {
        var d := ContestedIs(t, c, src, plan, plan[r], q);
      }
    }
  }

  lemma StrayIsHopeless(t: Tree, c: Config, src: Source, plan: Plan, e: Entry, x: Path)
    requires ValidPlan(plan) && e.path in plan && plan[e.path] == e && !e.kind.Other?
    requires Stray(c, plan, x) && Upto(x, Dst(c, e)) && x in t && !t[x].Dir?
    ensures Hopeless(t, c, src, plan, e, x)
  {
    ListedAt(c, plan, e);
    assert x == Dst(c, e) || Above(x, Dst(c, e));
  }

  /** A file at a listed directory's path is safe from all other entries. */
  lemma {:induction false} FileStays(t: Tree, c: Config, src: Source, plan: Plan, list: seq<Entry>, d: Entry, q: Path)
    requires ValidConfig(c) && RootReady(t, c) && ValidPlan(plan) && Drawn(list, plan) && d !in list
    requires Contested(t, c, plan, d, q)
    ensures Contested(Run(t, c, src, list).tree, c, plan, d, q) && RootReady(Run(t, c, src, list).tree, c)
    decreases |list|
  {
    if list != [] {
      var done, e := list[..|list| - 1], list[|list| - 1];
      var before := Run(t, c, src, done).tree;
      assert list == done + [e] && e in list && forall f | f in done :: f in list;
      FileStays(t, c, src, plan, done, d, q);
      RouteFrame(before, c, src, e);
      FileSpared(before, c, src, plan, e, d, q);
    }
  }

  lemma FileSpared(t: Tree, c: Config, src: Source, plan: Plan, e: Entry, d: Entry, q: Path)
    requires ValidConfig(c) && RootReady(t, c) && ValidPlan(plan) && Drawn([e, d], plan) && e != d
    requires Contested(t, c, plan, d, q)
    ensures Contested(Route(t, c, src, e).tree, c, plan, d, q)
  {
    assert e in [e, d];
    var u := Route(t, c, src, e).tree;
    var p, x := Dst(c, e), Dst(c, d);
    OwnResult(t, c, src, e);
    DstOrder(c, e, d);
    assert Between(t, t, c, src, plan) && Drawn([e], plan);
    BetweenStays(t, t, c, src, plan, e);
    StrayStays(t, u, c, src, plan, d, q);
    if u != t && Above(p, x) {
      DirectoryEdits(t, c, src, e);
      AncestorsAreDirs(t, x, p);
    }
  }

  lemma {:induction false} FirstOutcome(t: Tree, c: Config, src: Source, e: Entry, list: seq<Entry>)
    ensures Route(t, c, src, e).out in Run(t, c, src, [e] + list).outs
    decreases |list|
  {
    var all := [e] + list;
    if list == [] {
      assert all[..0] == [] && all == [e];
      assert Run(t, c, src, all).outs == [] + [Route(t, c, src, e).out];
    } else {
      assert all[..|all| - 1] == [e] + list[..|list| - 1];
      FirstOutcome(t, c, src, e, list[..|list| - 1]);
    }
  }

  lemma {:induction false} PlanList(plan: Plan) returns (list: seq<Entry>)
    requires forall r | r in plan :: plan[r].path == r
    ensures Covers(list, plan)
    decreases |plan|
  {
    list := [];
    if plan != map[] {
      var r :| r in plan;
      var rest := plan - {r};
      assert plan.Keys == rest.Keys + {r};
      var more := PlanList(rest);
      list := more + [plan[r]];
    }
  }

  lemma OneMoreCovers(plan: Plan, others: seq<Entry>, d: Entry)
    requires d.path in plan && plan[d.path] == d && Covers(others, plan - {d.path})
    ensures Covers(others + [d], plan) && Covers([d] + others, plan) && Drawn(others, plan)
  {
    forall r | r in plan ensures plan[r] in others + [d] && plan[r] in [d] + others {
      if r != d.path { assert r in plan - {d.path}; }
    }
  }

  /** Where a directory is contested, some two orders end with an error. */
  lemma ContestedFails(t: Tree, c: Config, src: Source, plan: Plan, d: Entry, q: Path)
      returns (first: seq<Entry>, second: seq<Entry>)
    requires ValidConfig(c) && RootReady(t, c) && ValidPlan(plan) && Contested(t, c, plan, d, q)
    ensures Covers(first, plan) && Covers(second, plan)
    ensures !ErrorFree(Run(Run(t, c, src, first).tree, c, src, second).outs)
  {
    var others := PlanList(plan - {d.path});
    first, second := others + [d], [d] + others;
    OneMoreCovers(plan, others, d);
    assert d.path !in plan - {d.path};
    FileStays(t, c, src, plan, others, d, q);
    assert first[..|first| - 1] == others;
    var w := Run(t, c, src, others).tree;
    var u := Run(t, c, src, first).tree;
    assert u == Route(w, c, src, d).tree;
    OpenFails(w, c, d, q);
    assert Route(w, c, src, d) == Route(w, c, map[], d);
    RouteFrame(w, c, src, d);
    assert OpenAbove(u, q, Dst(c, d)) by { assert Look(u, q) == Look(w, q); }
    OpenFails(u, c, d, q);
    assert Route(u, c, src, d) == Route(u, c, map[], d);
    FirstOutcome(u, c, src, d, others);
  }

  /** For any list: two passes are enough in whatever order, if and only if no
      listed path starts with an obstacle, no listed regular file became
      something else, and what lies above the listed paths without being listed
      can be passed. */
  lemma TwoPassesAreEnoughIff(t: Tree, c: Config, src: Source, plan: Plan)
    requires ValidConfig(c) && RootReady(t, c) && ValidPlan(plan)
    ensures (forall first, second | Covers(first, plan) && Covers(second, plan) ::
               ErrorFree(Run(Run(t, c, src, first).tree, c, src, second).outs))
            <==> Finishable(t, c, src, plan)
  {
    if Finishable(t, c, src, plan) {
      forall first, second | Covers(first, plan) && Covers(second, plan)
        ensures ErrorFree(Run(Run(t, c, src, first).tree, c, src, second).outs)
      {
        TwoPassesReachGoal(t, c, src, plan, first, second);
      }
    } else if Blocked(t, c, src, plan) {
      var list := PlanList(plan);
      RunFacts(t, c, src, plan, list);
      BlockedOutlivesRun(t, c, src, plan, list);
      BlockedOutlivesRun(Run(t, c, src, list).tree, c, src, plan, list);
    } else {
      ImpassableIs(t, c, src, plan);
      var d, q :| Contested(t, c, plan, d, q);
      var first, second := ContestedFails(t, c, src, plan, d, q);
    }
  }
}
