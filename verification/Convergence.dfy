/** Which tree a pass is meant to produce, when one pass reaches it whatever
    the order of the entries, and exactly when two passes do. */
module Convergence {
  import opened Tree
  import opened PathGuard
  import opened Mirror
  import opened Idempotence

  // ---- The goal, read off the starting tree and the plan alone ----

  function Wanted(c: Config, src: Source, e: Entry, was: Option<Node>): Option<Node> {
    match e.kind
    case Directory =>
      if e.path == [] then was
      else if was.Some? && was.value.Dir? then
        (if was.value.perm == DirPerm(c) then was else Some(Dir(DirPerm(c), false, was.value.trusted)))
      else Some(NewDir(c))
    case Symlink => Some(Link(e.target))
    case Regular =>
      if e.path !in src || !src[e.path].File? || Keeps(src[e.path], was) then was
      else Some(Copied(c, src[e.path], e))
    case Other => was
  }

  /** The entry ends up as a node of the destination. */
  predicate Lands(src: Source, e: Entry) {
    match e.kind
    case Directory => true
    case Symlink => true
    case Regular => e.path in src && src[e.path].File?
    case Other => false
  }

  /** Below a listed link or file nothing can stay. */
  ghost predicate Buried(c: Config, src: Source, plan: Plan, q: Path) {
    exists r | r in plan :: !plan[r].kind.Directory? && Lands(src, plan[r]) && Above(Dst(c, plan[r]), q)
  }

  /** A directory some listed entry needs above it. */
  ghost predicate Needed(c: Config, src: Source, plan: Plan, q: Path) {
    Above(c.root, q) && exists r | r in plan :: Lands(src, plan[r]) && Above(q, Dst(c, plan[r]))
  }

  predicate Listed(c: Config, plan: Plan, q: Path) {
    c.root <= q && q[|c.root|..] in plan
  }

  ghost function Expected(t: Tree, c: Config, src: Source, plan: Plan, q: Path): Option<Node> {
    if Listed(c, plan, q) then Wanted(c, src, plan[q[|c.root|..]], Look(t, q))
    else if Buried(c, src, plan, q) then None
    else if q in t then Some(t[q])
    else if Needed(c, src, plan, q) then Some(NewDir(c))
    else None
  }

  lemma ListedAt(c: Config, plan: Plan, e: Entry)
    requires ValidPlan(plan) && e.path in plan && plan[e.path] == e
    ensures Listed(c, plan, Dst(c, e)) && plan[Dst(c, e)[|c.root|..]] == e
  {
  }

  lemma ListedDst(c: Config, plan: Plan, q: Path)
    requires ValidPlan(plan) && Listed(c, plan, q)
    ensures Dst(c, plan[q[|c.root|..]]) == q
  {
  }

  // ---- Runs only ever move towards the goal ----

  predicate BothDirs(was: Option<Node>, goal: Option<Node>) {
    was.Some? && was.value.Dir? && goal.Some? && goal.value.Dir?
  }

  /** A node is untouched, final, or a displaced one not yet replaced. */
  predicate OnTheWay(was: Option<Node>, now: Option<Node>, goal: Option<Node>) {
    now == was || now == goal || (now.None? && goal != was && !BothDirs(was, goal))
  }

  ghost predicate Between(t0: Tree, t: Tree, c: Config, src: Source, plan: Plan) {
    forall q :: OnTheWay(Look(t0, q), Look(t, q), Expected(t0, c, src, plan, q))
  }

  lemma WantedIsStable(c: Config, src: Source, e: Entry, was: Option<Node>, now: Option<Node>)
    requires OnTheWay(was, now, Wanted(c, src, e, was))
    ensures Wanted(c, src, e, now) == Wanted(c, src, e, was)
  {
  }

  /** What handling `e` can leave at its own path. */
  lemma OwnResult(t: Tree, c: Config, src: Source, e: Entry)
    requires ValidConfig(c) && ValidEntry(e) && RootReady(t, c)
    ensures var u := Route(t, c, src, e).tree; var p := Dst(c, e);
            && (u == t || (e.path != [] && Lands(src, e) && Edited(t, u, c, p)))
            && OnTheWay(Look(t, p), Look(u, p), Wanted(c, src, e, Look(t, p)))
            && (u != t && e.kind.Directory? && !(p in u && u[p].Dir?) ==> !(p in t && t[p].Dir?))
  {
    match e.kind {
      case Directory => DirectoryEdits(t, c, src, e);
      case Symlink => LinkEdits(t, c, src, e);
      case Regular => RegularEdits(t, c, src, e);
      case Other =>
    }
  }

  lemma BetweenStays(t0: Tree, t: Tree, c: Config, src: Source, plan: Plan, e: Entry)
    requires ValidConfig(c) && RootReady(t, c) && ValidPlan(plan) && Drawn([e], plan)
    requires Between(t0, t, c, src, plan)
    ensures Between(t0, Route(t, c, src, e).tree, c, src, plan)
  {
    assert e in [e];
    var p := Dst(c, e);
    var u := Route(t, c, src, e).tree;
    OwnResult(t, c, src, e);
    ListedAt(c, plan, e);
    if u != t {
      forall q ensures OnTheWay(Look(t0, q), Look(u, q), Expected(t0, c, src, plan, q)) {
        assert OnTheWay(Look(t0, q), Look(t, q), Expected(t0, c, src, plan, q));
        if q == p {
          WantedIsStable(c, src, e, Look(t0, q), Look(t, q));
        } else if q !in t && Above(q, p) {
          ParentIsExpected(t0, t, c, src, plan, e, q);
        } else if Above(p, q) && !(p in u && u[p].Dir?) {
          if e.kind.Directory? {
            if q in t { AncestorsAreDirs(t, q, p); }
          } else {
            if Listed(c, plan, q) {
              ListedDst(c, plan, q);
              DstOrder(c, e, plan[q[|c.root|..]]);
            }
            assert Buried(c, src, plan, q);
          }
        }
      }
    }
  }

  lemma ParentIsExpected(t0: Tree, t: Tree, c: Config, src: Source, plan: Plan, e: Entry, q: Path)
    requires ValidConfig(c) && RootReady(t, c) && ValidPlan(plan) && e.path in plan && plan[e.path] == e
    requires OnTheWay(Look(t0, q), Look(t, q), Expected(t0, c, src, plan, q))
    requires Lands(src, e) && q !in t && Above(q, Dst(c, e))
    ensures Expected(t0, c, src, plan, q) == Some(NewDir(c))
  {
    var p := Dst(c, e);
    assert Upto(c.root, p) by { assert p[..|c.root|] == c.root; }
    MissingIsBelowRoot(t, c.root, p, q);
    if Listed(c, plan, q) {
      ListedDst(c, plan, q);
      DstOrder(c, plan[q[|c.root|..]], e);
      assert q[|c.root|..] != [];
    } else {
      if Buried(c, src, plan, q) {
        var r :| r in plan && !plan[r].kind.Directory? && Lands(src, plan[r]) && Above(Dst(c, plan[r]), q);
        assert Above(Dst(c, plan[r]), p) by { assert q == p[..|q|]; assert Dst(c, plan[r]) == p[..|Dst(c, plan[r])|]; }
        DstOrder(c, plan[r], e);
        assert false;
      }
      assert Needed(c, src, plan, q);
    }
  }

  /** Once every listed entry is settled the goal is reached everywhere. */
  lemma SettledMeansExpected(t0: Tree, t: Tree, c: Config, src: Source, plan: Plan)
    requires ValidConfig(c) && ValidPlan(plan) && WellFormed(t)
    requires Between(t0, t, c, src, plan)
    requires forall r | r in plan :: Settled(t, c, src, plan[r])
    ensures forall q :: Look(t, q) == Expected(t0, c, src, plan, q)
  {
    forall q ensures Look(t, q) == Expected(t0, c, src, plan, q) {
      assert OnTheWay(Look(t0, q), Look(t, q), Expected(t0, c, src, plan, q));
      if Listed(c, plan, q) {
        ListedDst(c, plan, q);
        assert Settled(t, c, src, plan[q[|c.root|..]]);
      } else if Buried(c, src, plan, q) {
        var r :| r in plan && !plan[r].kind.Directory? && Lands(src, plan[r]) && Above(Dst(c, plan[r]), q);
        assert Settled(t, c, src, plan[r]);
        if q in t { AncestorsAreDirs(t, q, Dst(c, plan[r])); }
      } else if q !in t0 && Needed(c, src, plan, q) {
        var r :| r in plan && Lands(src, plan[r]) && Above(q, Dst(c, plan[r]));
        assert Settled(t, c, src, plan[r]);
        AncestorsAreDirs(t, Dst(c, plan[r]), q);
      }
    }
  }

  /** The goal does not move while a run is on its way. */
  lemma ExpectedIsStable(t0: Tree, t: Tree, c: Config, src: Source, plan: Plan, q: Path)
    requires ValidPlan(plan) && Between(t0, t, c, src, plan)
    ensures Expected(t, c, src, plan, q) == Expected(t0, c, src, plan, q)
  {
  }

  // ---- Trees one pass can finish ----

  /** No listed regular file turned into something else since the scan. */
  ghost predicate SourceStable(src: Source, plan: Plan) {
    forall r | r in plan && plan[r].kind.Regular? && r in src :: src[r].File?
  }

  /** Handling the entry will replace something or put something there. */
  predicate Demanding(t: Tree, c: Config, src: Source, e: Entry) {
    match e.kind
    case Directory => true
    case Symlink => Look(t, Dst(c, e)) != Some(Link(e.target))
    case Regular => e.path in src && src[e.path].File? && !Keeps(src[e.path], Look(t, Dst(c, e)))
    case Other => false
  }

  predicate IsDir(t: Tree, q: Path) {
    q in t && t[q].Dir?
  }

  /** The component of `p` that comes after `q`. */
  function Next(q: Path, p: Path): (x: Path)
    requires Above(q, p)
    ensures x != [] && Parent(x) == q && Upto(x, p) && Above(q, x)
  {
    p[..|q| + 1]
  }

  /** What a directory above the entry has to be like: nobody else may change
      it if something is to be put below it, and nobody else may add to it if a
      directory is to be made in it. */
  ghost predicate Bearable(t: Tree, c: Config, src: Source, e: Entry, q: Path)
    requires q in t && Above(q, Dst(c, e))
  {
    && t[q].Dir?
    && (Demanding(t, c, src, e) ==> Secure(t[q]))
    && (e.kind.Directory? && PublicWritable(t[q]) ==> IsDir(t, Next(q, Dst(c, e))))
  }

  /** Nothing at or above the listed path makes its handler fail. */
  ghost predicate FitAt(t: Tree, c: Config, src: Source, e: Entry) {
    var p := Dst(c, e);
    && (forall q | q in t && Above(c.root, q) && Above(q, p) :: Bearable(t, c, src, e, q))
    && (e.kind.Directory? && e.path != [] && p in t ==> SafeDir(t[p]))
    && (e.kind.Regular? && p in t ==> !t[p].Link?)
  }

  ghost predicate Fit(t: Tree, c: Config, src: Source, plan: Plan) {
    forall r | r in plan && !plan[r].kind.Other? :: FitAt(t, c, src, plan[r])
  }

  /** The guard accepts a path below the root when every directory on the way
      is secure, and none is open to others above a missing part. */
  lemma WayIsPrivate(t: Tree, c: Config, x: Path)
    requires RootReady(t, c) && Upto(c.root, x)
    requires forall q | q in t && Above(c.root, q) && Upto(q, x) :: t[q].Dir? && Secure(t[q])
    requires forall q | q in t && Above(c.root, q) && Above(q, x) ::
               t[q].Dir? && (PublicWritable(t[q]) ==> Next(q, x) in t)
    ensures Private(t, x, true) && (x in t ==> Private(t, x, false))
  {
    forall q | q in t && q != [] && Upto(q, x) ensures t[q].Dir? && Secure(t[q]) {
      if |q| <= |c.root| { PrefixesCompare(x, q, c.root); } else { PrefixesCompare(x, c.root, q); }
    }
    forall q | q in t && Above(q, x) ensures t[q].Dir? {
      if q != [] { assert Upto(q, x); }
    }
    forall q | q in t && q != [] && t[q].Dir? && Edge(t, q, x) ensures !PublicWritable(t[q]) {
      assert Upto(q, x) && Next(q, x) !in t;
      if |q| < |c.root| {
        PrefixesCompare(x, Next(q, x), c.root);
        if Next(q, x) != c.root { AncestorsAreDirs(t, c.root, Next(q, x)); }
        assert false;
      } else {
        PrefixesCompare(x, c.root, q);
        assert q == c.root || Above(c.root, q);
      }
    }
  }

  /** Whatever is above the entry is a directory. */
  lemma FitWay(t: Tree, c: Config, src: Source, e: Entry)
    requires RootReady(t, c) && FitAt(t, c, src, e) && e.path != []
    ensures forall q | q in t && Above(q, Dst(c, e)) :: t[q].Dir?
    ensures Unlinked(t, Parent(Dst(c, e))) && !FileAbove(t, Dst(c, e))
    ensures !(Dst(c, e) in t && t[Dst(c, e)].Link?) ==> Unlinked(t, Dst(c, e))
  {
    var p := Dst(c, e);
    DstParent(c, e);
    forall q | q in t && Above(q, p) ensures t[q].Dir? {
      if |q| <= |c.root| {
        PrefixesCompare(p, q, c.root);
        if q != c.root { AncestorsAreDirs(t, c.root, q); }
      } else {
        PrefixesCompare(p, c.root, q);
        assert Above(c.root, q) && Bearable(t, c, src, e, q);
      }
    }
    forall q ensures Upto(q, Parent(p)) <==> Above(q, p) { PrefixOfParent(p, q); }
    forall q | q in t && Above(q, Parent(p)) ensures t[q].Dir? { assert Upto(q, Parent(p)); }
    if Parent(p) in t { assert Upto(Parent(p), Parent(p)); }
  }

  lemma FitSucceeds(t: Tree, c: Config, src: Source, e: Entry)
    requires ValidConfig(c) && ValidEntry(e) && RootReady(t, c) && (e.kind.Other? || FitAt(t, c, src, e))
    requires e.kind.Regular? && e.path in src ==> src[e.path].File?
    ensures !Route(t, c, src, e).out.Failed?
  {
    if e.kind.Other? {
    } else if e.path == [] {
      assert Dst(c, e) == c.root;
      SettledDirectory(t, c, src, e);
    } else {
      FitWay(t, c, src, e);
      if e.kind.Directory? {
        FitDirectory(t, c, src, e);
      } else if Demanding(t, c, src, e) {
        FitLeaf(t, c, src, e);
      } else {
        SettledLeaf(t, c, src, e);
      }
    }
  }

  /** The way to a directory is private, also as far as it is missing. */
  lemma FitDirectoryWay(t: Tree, c: Config, src: Source, e: Entry)
    requires RootReady(t, c) && FitAt(t, c, src, e) && e.kind.Directory? && e.path != []
    requires forall q | q in t && Above(q, Dst(c, e)) :: t[q].Dir?
    ensures Private(t, Parent(Dst(c, e)), true) && Private(t, Dst(c, e), true)
  {
    var p := Dst(c, e);
    DstParent(c, e);
    forall q ensures Upto(q, Parent(p)) <==> Above(q, p) { PrefixOfParent(p, q); }
    forall q | q in t && Above(c.root, q) && Upto(q, p) ensures t[q].Dir? && Secure(t[q]) {
      if q != p { assert Bearable(t, c, src, e, q); }
    }
    forall q | q in t && Above(c.root, q) && Above(q, p) && PublicWritable(t[q]) ensures Next(q, p) in t {
      assert Bearable(t, c, src, e, q);
    }
    WayIsPrivate(t, c, p);
    forall q | Above(q, Parent(p)) ensures Above(q, p) && Next(q, Parent(p)) == Next(q, p) {
      assert Upto(q, Parent(p));
    }
    WayIsPrivate(t, c, Parent(p));
  }

  lemma FitDirectory(t: Tree, c: Config, src: Source, e: Entry)
    requires ValidConfig(c) && ValidEntry(e) && RootReady(t, c) && FitAt(t, c, src, e)
    requires e.kind.Directory? && e.path != [] && forall q | q in t && Above(q, Dst(c, e)) :: t[q].Dir?
    ensures !Route(t, c, src, e).out.Failed?
  {
    var p := Dst(c, e);
    DstParent(c, e);
    FitDirectoryWay(t, c, src, e);
    var u := Chmodded(MakeDirs(t, p, DirPerm(c)), p, DirPerm(c));
    if p in t { DirectoryKept(t, c, p); } else { DirectoryCreated(t, c, p); }
    if p !in t || t[p].perm != DirPerm(c) {
      RouteFrame(t, c, src, e);
      assert Route(t, c, src, e).tree == u;
      MadeWay(t, u, c, src, e);
      WayIsPrivate(u, c, p);
    }
  }

  lemma MadeWay(t: Tree, u: Tree, c: Config, src: Source, e: Entry)
    requires ValidConfig(c) && FitAt(t, c, src, e) && e.kind.Directory? && e.path != []
    requires WellFormed(u) && Dst(c, e) in u && u[Dst(c, e)].Dir? && SafeDir(u[Dst(c, e)])
    requires forall q | Above(q, Dst(c, e)) :: Look(u, q) == if q !in t then Some(NewDir(c)) else Look(t, q)
    ensures forall q | q in u && Above(c.root, q) && Upto(q, Dst(c, e)) :: u[q].Dir? && Secure(u[q])
    ensures forall q | q in u && Above(c.root, q) && Above(q, Dst(c, e)) :: Next(q, Dst(c, e)) in u
  {
    var p := Dst(c, e);
    ConfigDirs(c);
    forall q | q in u && Above(c.root, q) && Upto(q, p) ensures u[q].Dir? && Secure(u[q]) {
      if q != p {
        assert Above(q, p) && Look(u, q) == if q !in t then Some(NewDir(c)) else Look(t, q);
        if q in t { assert Bearable(t, c, src, e, q); }
      }
    }
    forall q | q in u && Above(c.root, q) && Above(q, p) ensures Next(q, p) in u {
      if Next(q, p) != p { AncestorsAreDirs(u, p, Next(q, p)); }
    }
  }

  lemma FitLeaf(t: Tree, c: Config, src: Source, e: Entry)
    requires ValidConfig(c) && ValidEntry(e) && RootReady(t, c) && FitAt(t, c, src, e)
    requires e.path != [] && (e.kind.Symlink? || e.kind.Regular?) && Demanding(t, c, src, e)
    requires Unlinked(t, Parent(Dst(c, e))) && !FileAbove(t, Dst(c, e))
    requires forall q | q in t && Above(q, Dst(c, e)) :: t[q].Dir?
    ensures !Route(t, c, src, e).out.Failed?
  {
    var p := Dst(c, e);
    DstParent(c, e);
    if p in t {
      Replaced(t, c, p, Link(""));
      ParentIsPrivate(t, RemoveTree(t, p), c, src, e);
      ParentIsPrivate(t, t, c, src, e);
    } else {
      ParentsMade(t, c, e, Link(""));
      ParentIsPrivate(t, WithParents(t, c, p), c, src, e);
    }
  }

  lemma ParentIsPrivate(t: Tree, ready: Tree, c: Config, src: Source, e: Entry)
    requires ValidConfig(c) && ValidEntry(e) && e.path != [] && RootReady(t, c)
    requires FitAt(t, c, src, e) && Demanding(t, c, src, e)
    requires ready == t || Edited(t, ready, c, Dst(c, e))
    requires Parent(Dst(c, e)) in ready
    ensures Private(ready, Parent(Dst(c, e)), false)
  {
    var p := Dst(c, e);
    DstParent(c, e);
    forall q ensures Upto(q, Parent(p)) <==> Above(q, p) { PrefixOfParent(p, q); }
    AboveIsOldOrNew(t, ready, c, e);
    ConfigDirs(c);
    forall q | q in ready && Above(c.root, q) && Upto(q, Parent(p)) ensures ready[q].Dir? && Secure(ready[q]) {
      assert Look(ready, q) == Look(t, q) || Look(ready, q) == Some(NewDir(c));
      if q in t && Look(ready, q) == Look(t, q) { assert Bearable(t, c, src, e, q); }
    }
    forall q | q in ready && Above(c.root, q) && Above(q, Parent(p)) ensures Next(q, Parent(p)) in ready {
      if Next(q, Parent(p)) != Parent(p) { AncestorsAreDirs(ready, Parent(p), Next(q, Parent(p))); }
    }
    WayIsPrivate(ready, c, Parent(p));
  }

  /** Above the entry nothing changes but what was missing; the root stays. */
  lemma AboveIsOldOrNew(t: Tree, ready: Tree, c: Config, e: Entry)
    requires ValidConfig(c) && ValidEntry(e) && e.path != [] && RootReady(t, c)
    requires ready == t || Edited(t, ready, c, Dst(c, e))
    ensures forall q | Above(q, Dst(c, e)) :: Look(ready, q) == Look(t, q) || Look(ready, q) == Some(NewDir(c))
    ensures RootReady(ready, c)
  {
    var p := Dst(c, e);
    DstParent(c, e);
    forall q | Upto(q, c.root) ensures Look(ready, q) == Look(t, q) {
      assert Above(q, p) by { assert q == p[..|q|]; assert |q| < |p|; }
      if q != c.root { AncestorsAreDirs(t, c.root, q); }
      assert q in t;
    }
    assert Upto(c.root, c.root) && Look(ready, c.root) == Look(t, c.root);
  }

  // ---- One pass over a fit tree ----

  /** A listed leaf is changed by its own entry only. */
  lemma LeafIsOwn(t: Tree, c: Config, src: Source, plan: Plan, e: Entry, f: Entry)
    requires ValidConfig(c) && RootReady(t, c) && ValidPlan(plan) && Drawn([e, f], plan) && e != f
    requires !f.kind.Directory? && !Route(t, c, src, e).out.Failed?
    ensures Look(Route(t, c, src, e).tree, Dst(c, f)) == Look(t, Dst(c, f))
  {
    assert e in [e, f] && f in [e, f];
    OwnResult(t, c, src, e);
    DstOrder(c, e, f);
    DstOrder(c, f, e);
    if e.kind.Directory? { DirectoryEdits(t, c, src, e); }
  }

  lemma FitStays(t: Tree, c: Config, src: Source, plan: Plan, e: Entry, f: Entry)
    requires ValidConfig(c) && RootReady(t, c) && ValidPlan(plan) && Drawn([e, f], plan)
    requires (e.kind.Other? || FitAt(t, c, src, e)) && FitAt(t, c, src, f) && !f.kind.Other?
    requires !Route(t, c, src, e).out.Failed?
    ensures FitAt(Route(t, c, src, e).tree, c, src, f)
  {
    assert e in [e, f] && f in [e, f];
    var u := Route(t, c, src, e).tree;
    var p, g := Dst(c, e), Dst(c, f);
    OwnResult(t, c, src, e);
    DstOrder(c, e, f);
    if u != t {
      FitOwn(t, c, src, e);
      DemandsStay(t, c, src, plan, e, f);
      forall q | q in u && Above(c.root, q) && Above(q, g) ensures Bearable(u, c, src, f, q) {
        BearableStays(t, c, src, plan, e, f, q);
      }
      if g != p && g in u { ElsewhereIsOldOrSafe(t, u, c, p, g); }
    }
  }

  lemma DemandsStay(t: Tree, c: Config, src: Source, plan: Plan, e: Entry, f: Entry)
    requires ValidConfig(c) && RootReady(t, c) && ValidPlan(plan) && Drawn([e, f], plan)
    requires !Route(t, c, src, e).out.Failed?
    ensures Demanding(Route(t, c, src, e).tree, c, src, f) ==> Demanding(t, c, src, f)
  {
    if !f.kind.Directory? && e != f {
      LeafIsOwn(t, c, src, plan, e, f);
    }
    assert e in [e, f];
    if e == f { SuccessSettles(t, c, src, e); }
  }

  lemma BearableStays(t: Tree, c: Config, src: Source, plan: Plan, e: Entry, f: Entry, q: Path)
    requires ValidConfig(c) && RootReady(t, c) && ValidPlan(plan) && Drawn([e, f], plan) && FitAt(t, c, src, f)
    requires !Route(t, c, src, e).out.Failed? && Route(t, c, src, e).tree != t
    requires var u := Route(t, c, src, e).tree;
      && Edited(t, u, c, Dst(c, e)) && q in u && (e.kind.Directory? ==> IsDir(u, Dst(c, e)) && SafeDir(u[Dst(c, e)]))
      && (Demanding(u, c, src, f) ==> Demanding(t, c, src, f))
    requires Above(c.root, q) && Above(q, Dst(c, f))
    ensures Bearable(Route(t, c, src, e).tree, c, src, f, q)
  {
    assert e in [e, f] && f in [e, f];
    var u := Route(t, c, src, e).tree;
    var p, g := Dst(c, e), Dst(c, f);
    DstOrder(c, e, f);
    ConfigDirs(c);
    if q != p {
      ElsewhereIsOldOrSafe(t, u, c, p, q);
      if Look(u, q) == Look(t, q) {
        assert Bearable(t, c, src, f, q);
        var x := Next(q, g);
        if IsDir(t, x) && x != p {
          if Above(p, x) { assert Above(p, g); }
          assert Look(u, x) == Look(t, x);
        }
        if x == p && x != g { assert Above(p, g); }
      }
    }
  }

  lemma ElsewhereIsOldOrSafe(t: Tree, u: Tree, c: Config, p: Path, q: Path)
    requires ValidConfig(c) && Edited(t, u, c, p) && q != p && q in u
    ensures Look(u, q) == Look(t, q) || (u[q] == NewDir(c) && SafeDir(u[q]))
  {
  }

  lemma FitOwn(t: Tree, c: Config, src: Source, e: Entry)
    requires ValidConfig(c) && ValidEntry(e) && RootReady(t, c) && FitAt(t, c, src, e)
    requires Route(t, c, src, e).tree != t && !Route(t, c, src, e).out.Failed?
    ensures var u := Route(t, c, src, e).tree; var p := Dst(c, e);
      && (e.kind.Directory? ==> IsDir(u, p) && SafeDir(u[p])) && (e.kind.Regular? && p in u ==> !u[p].Link?)
  {
    if e.kind.Directory? {
      DirectoryEdits(t, c, src, e);
      OwnDirectoryIsSafe(t, Route(t, c, src, e).tree, c, Dst(c, e));
    } else if e.kind.Regular? {
      RegularEdits(t, c, src, e);
    }
  }

  lemma OwnDirectoryIsSafe(t: Tree, u: Tree, c: Config, p: Path)
    requires ValidConfig(c) && IsDir(u, p) && (IsDir(t, p) ==> SafeDir(t[p]) && u[p] == WithPerm(t[p], DirPerm(c)))
    requires !IsDir(t, p) ==> u[p] == NewDir(c)
    ensures SafeDir(u[p])
  {
    ConfigDirs(c);
    assert u[p] == NewDir(c);
  }

  ghost predicate Covers(list: seq<Entry>, plan: Plan) {
    Drawn(list, plan) && forall r | r in plan :: plan[r] in list
  }

  lemma {:induction false} FitRun(t: Tree, c: Config, src: Source, plan: Plan, list: seq<Entry>)
    requires ValidConfig(c) && RootReady(t, c) && ValidPlan(plan) && SourceStable(src, plan)
    requires Drawn(list, plan) && Fit(t, c, src, plan)
    ensures var run := Run(t, c, src, list);
            ErrorFree(run.outs) && RootReady(run.tree, c) && Fit(run.tree, c, src, plan)
    decreases |list|
  {
    if list != [] {
      var k := |list| - 1;
      var before := Run(t, c, src, list[..k]);
      var e := list[k];
      assert e in list && forall f | f in list[..k] :: f in list;
      FitRun(t, c, src, plan, list[..k]);
      FitSucceeds(before.tree, c, src, e);
      RouteFrame(before.tree, c, src, e);
      forall r | r in plan && !plan[r].kind.Other? ensures FitAt(Route(before.tree, c, src, e).tree, c, src, plan[r]) {
        FitStays(before.tree, c, src, plan, e, plan[r]);
      }
    }
  }

  lemma {:induction false} RunBetween(t0: Tree, t: Tree, c: Config, src: Source, plan: Plan, list: seq<Entry>)
    requires ValidConfig(c) && RootReady(t, c) && ValidPlan(plan) && Drawn(list, plan)
    requires Between(t0, t, c, src, plan)
    ensures Between(t0, Run(t, c, src, list).tree, c, src, plan)
    decreases |list|
  {
    if list != [] {
      var k := |list| - 1;
      assert list[k] in list && forall f | f in list[..k] :: f in list;
      RunFacts(t, c, src, plan, list[..k]);
      RunBetween(t0, t, c, src, plan, list[..k]);
      BetweenStays(t0, Run(t, c, src, list[..k]).tree, c, src, plan, list[k]);
    }
  }

  /** From a fit tree one pass has no error and ends in the expected tree,
      whatever the order of the entries and however often each occurs. */
  lemma FitPassReachesGoal(t: Tree, c: Config, src: Source, plan: Plan, list: seq<Entry>)
    requires ValidConfig(c) && RootReady(t, c) && ValidPlan(plan) && SourceStable(src, plan)
    requires Fit(t, c, src, plan) && Covers(list, plan)
    ensures ErrorFree(Run(t, c, src, list).outs)
    ensures forall q :: Look(Run(t, c, src, list).tree, q) == Expected(t, c, src, plan, q)
  {
    var u := Run(t, c, src, list).tree;
    FitRun(t, c, src, plan, list);
    RunBetween(t, t, c, src, plan, list);
    ErrorFreeRunSettles(t, c, src, plan, list);
    SettledMeansExpected(t, u, c, src, plan);
  }

  /** `list` interleaves the chunks, each chunk's entries in their own order. */
  ghost predicate Interleaves(list: seq<Entry>, chunks: seq<seq<Entry>>)
    decreases |list|
  {
    if list == [] then forall k | 0 <= k < |chunks| :: chunks[k] == []
    else exists k :: 0 <= k < |chunks| && chunks[k] != [] && chunks[k][0] == list[0]
                     && Interleaves(list[1..], chunks[k := chunks[k][1..]])
  }

  predicate InSome(chunks: seq<seq<Entry>>, e: Entry) {
    exists k :: 0 <= k < |chunks| && e in chunks[k]
  }

  predicate InPlan(plan: Plan, e: Entry) {
    e.path in plan && plan[e.path] == e
  }

  /** The chunks hold the plan's entries and nothing else. */
  ghost predicate Cuts(chunks: seq<seq<Entry>>, plan: Plan) {
    forall e :: InSome(chunks, e) <==> InPlan(plan, e)
  }

  lemma {:induction false} InterleavingKeepsEntries(list: seq<Entry>, chunks: seq<seq<Entry>>, e: Entry)
    requires Interleaves(list, chunks)
    ensures e in list <==> InSome(chunks, e)
    decreases |list|
  {
    if list != [] {
      var k :| 0 <= k < |chunks| && chunks[k] != [] && chunks[k][0] == list[0]
               && Interleaves(list[1..], chunks[k := chunks[k][1..]]);
      var rest := chunks[k := chunks[k][1..]];
      InterleavingKeepsEntries(list[1..], rest, e);
      assert list == [list[0]] + list[1..] && chunks[k] == [list[0]] + rest[k];
      assert forall j | 0 <= j < |chunks| && j != k :: rest[j] == chunks[j];
      if j :| 0 <= j < |chunks| && e in chunks[j] && e != list[0] { assert e in rest[j]; }
      if j :| 0 <= j < |rest| && e in rest[j] { assert e in chunks[j]; }
    }
  }

  lemma InterleavingCovers(list: seq<Entry>, chunks: seq<seq<Entry>>, plan: Plan)
    requires Interleaves(list, chunks) && Cuts(chunks, plan) && ValidPlan(plan)
    ensures Covers(list, plan)
  {
    forall e ensures e in list <==> InPlan(plan, e) { InterleavingKeepsEntries(list, chunks, e); }
    forall r | r in plan ensures plan[r] in list { assert InPlan(plan, plan[r]); }
  }

  /** Any two ways to cut the entries into chunks and to interleave the chunk
      workers entry by entry end in one tree. */
  lemma ChunkingIsIrrelevant(t: Tree, c: Config, src: Source, plan: Plan, chunks: seq<seq<Entry>>, list: seq<Entry>,
                             chunks': seq<seq<Entry>>, list': seq<Entry>)
    requires ValidConfig(c) && RootReady(t, c) && ValidPlan(plan) && SourceStable(src, plan) && Fit(t, c, src, plan)
    requires Interleaves(list, chunks) && Cuts(chunks, plan)
    requires Interleaves(list', chunks') && Cuts(chunks', plan)
    ensures Run(t, c, src, list).tree == Run(t, c, src, list').tree
  {
    InterleavingCovers(list, chunks, plan);
    InterleavingCovers(list', chunks', plan);
    FitPassReachesGoal(t, c, src, plan, list);
    FitPassReachesGoal(t, c, src, plan, list');
    SameLookSameTree(Run(t, c, src, list).tree, Run(t, c, src, list').tree);
  }
}
