/** Every state a run passes through, also when calls fail and the process
    dies, and what a later run makes of it. */
module Recovery {
  import opened Tree
  import opened PathGuard
  import opened Mirror
  import opened Idempotence
  import opened Convergence
  import opened TwoPasses

  /** No listed path could be taken for a temporary file. */
  predicate NoTempNames(plan: Plan) {
    forall r, i | r in plan && 0 <= i < |r| :: !(".tmp-" <= r[i])
  }

  ghost predicate Displaced(t0: Tree, c: Config, plan: Plan, q: Path) {
    exists r | r in plan ::
      Above(Dst(c, plan[r]), q) && !(plan[r].kind.Directory? && Dst(c, plan[r]) in t0 && t0[Dst(c, plan[r])].Dir?)
  }

  ghost predicate AboveListed(c: Config, plan: Plan, q: Path) {
    exists r | r in plan :: Above(q, Dst(c, plan[r]))
  }

  /** A scratch file beside some listed file. */
  ghost predicate Leftover(t: Tree, c: Config, plan: Plan, q: Path) {
    q in t && t[q].File? && IsTemp(q) && exists r | r in plan :: r != [] && Parent(q) == Parent(Dst(c, plan[r]))
  }

  /** All a whole run may have done at `q` by the time it is in state `t`. */
  ghost predicate ReachedAt(t0: Tree, t: Tree, c: Config, src: Source, plan: Plan, q: Path) {
    || Look(t, q) == Look(t0, q)
    || (Listed(c, plan, q) && q != c.root && OwnNode(c, src, plan[q[|c.root|..]], Look(t0, q), Look(t, q)))
    || (q !in t && Displaced(t0, c, plan, q))
    || (Above(c.root, q) && AboveListed(c, plan, q) && q !in t0 && Look(t, q) == Some(NewDir(c)))
    || (q !in t0 && Leftover(t, c, plan, q))
  }

  ghost predicate Reached(t0: Tree, t: Tree, c: Config, src: Source, plan: Plan) {
    RootReady(t, c) && forall q :: ReachedAt(t0, t, c, src, plan, q)
  }

  lemma OwnNodeComposes(c: Config, src: Source, e: Entry, a: Option<Node>, b: Option<Node>, d: Option<Node>)
    requires OwnNode(c, src, e, a, b) && OwnNode(c, src, e, b, d)
    ensures OwnNode(c, src, e, a, d)
  {
  }

  /** A path with a listed entry strictly below it, or a sibling of a listed
      path, cannot have been displaced: its listed ancestors are directories
      and, holding it at the start, were directories then. */
  lemma NotDisplaced(t0: Tree, c: Config, plan: Plan, e: Entry, q: Path)
    requires WellFormed(t0) && ValidPlan(plan) && e.path in plan && plan[e.path] == e && e.path != []
    requires q in t0 && (Upto(q, Dst(c, e)) || Parent(q) == Parent(Dst(c, e)))
    ensures !Displaced(t0, c, plan, q)
  {
    if Displaced(t0, c, plan, q) {
      var p := Dst(c, e);
      DstParent(c, e);
      var r :| r in plan
               && Above(Dst(c, plan[r]), q)
               && !(plan[r].kind.Directory? && Dst(c, plan[r]) in t0 && t0[Dst(c, plan[r])].Dir?);
      var g := Dst(c, plan[r]);
      if !Upto(q, p) { PrefixOfParent(q, g); PrefixOfParent(p, g); } else { assert g == p[..|g|]; }
      assert Above(g, p);
      DstOrder(c, plan[r], e);
      AncestorsAreDirs(t0, q, g);
    }
  }

  lemma TempIsUnlisted(c: Config, plan: Plan, q: Path)
    requires ValidPlan(plan) && NoTempNames(plan) && IsTemp(q) && q != c.root
    ensures !Listed(c, plan, q)
    ensures Above(c.root, q) ==> !AboveListed(c, plan, q)
  {
  }

  lemma DirectoryStays(t0: Tree, t: Tree, c: Config, src: Source, plan: Plan, e: Entry)
    requires ValidConfig(c) && RootReady(t0, c) && ValidPlan(plan) && NoTempNames(plan)
    requires e.path in plan && plan[e.path] == e && e.kind.Directory?
    requires Reached(t0, t, c, src, plan) && Dst(c, e) in t0 && t0[Dst(c, e)].Dir?
    ensures Dst(c, e) in t && t[Dst(c, e)].Dir?
  {
    var p := Dst(c, e);
    assert ReachedAt(t0, t, c, src, plan, p);
    ListedAt(c, plan, e);
    if e.path == [] {
      assert p == c.root;
    } else {
      NotDisplaced(t0, c, plan, e, p);
    }
  }

  /** One more entry, cut short anywhere, keeps the run-wide frame. */
  lemma ReachedStays(t0: Tree, t: Tree, u: Tree, c: Config, src: Source, plan: Plan, e: Entry)
    requires ValidConfig(c) && RootReady(t0, c) && ValidPlan(plan) && NoTempNames(plan) && Drawn([e], plan)
    requires Reached(t0, t, c, src, plan) && Frame(t, u, c, src, e)
    ensures Reached(t0, u, c, src, plan)
  {
    assert e in [e];
    FrameKeepsRoot(t, u, c, src, e);
    forall q ensures ReachedAt(t0, u, c, src, plan, q) {
      assert ReachedAt(t0, t, c, src, plan, q) && FramedAt(t, u, c, src, e, q);
      if Look(u, q) != Look(t, q) {
        ReachedStep(t0, t, u, c, src, plan, e, q);
      } else {
        KeptStep(t0, t, u, c, src, plan, q);
      }
    }
  }

  lemma KeptStep(t0: Tree, t: Tree, u: Tree, c: Config, src: Source, plan: Plan, q: Path)
    requires ReachedAt(t0, t, c, src, plan, q) && Look(u, q) == Look(t, q)
    ensures ReachedAt(t0, u, c, src, plan, q)
  {
  }

  lemma ReachedStep(t0: Tree, t: Tree, u: Tree, c: Config, src: Source, plan: Plan, e: Entry, q: Path)
    requires ValidConfig(c) && RootReady(t0, c) && ValidPlan(plan) && NoTempNames(plan)
    requires e.path in plan && plan[e.path] == e
    requires Reached(t0, t, c, src, plan) && FramedAt(t, u, c, src, e, q) && Look(u, q) != Look(t, q)
    ensures ReachedAt(t0, u, c, src, plan, q)
  {
    var p := Dst(c, e);
    assert ReachedAt(t0, t, c, src, plan, q) && ReachedAt(t0, t, c, src, plan, p);
    ListedAt(c, plan, e);
    if q == p && OwnNode(c, src, e, Look(t, q), Look(u, q)) {
      assert e.path != [] && p != c.root;
      OwnStep(t0, t, u, c, src, plan, e);
    } else if Above(p, q) && q !in u {
      if e.kind.Directory? && p in t0 && t0[p].Dir? {
        DirectoryStays(t0, t, c, src, plan, e);
        assert false;
      }
      assert Displaced(t0, c, plan, q);
    } else if q !in t && Look(u, q) == Some(NewDir(c)) && Above(c.root, q) && Above(q, p) {
      CreatedStep(t0, t, u, c, src, plan, e, q);
    } else {
      assert e.path != [];
      DstParent(c, e);
      assert q != c.root by { PrefixOfParent(p, c.root); }
      TempIsUnlisted(c, plan, q);
      if q in t0 { NotDisplaced(t0, c, plan, e, q); }
      assert Leftover(u, c, plan, q);
    }
  }

  lemma OwnStep(t0: Tree, t: Tree, u: Tree, c: Config, src: Source, plan: Plan, e: Entry)
    requires ValidConfig(c) && RootReady(t0, c) && ValidPlan(plan) && NoTempNames(plan)
    requires e.path in plan && plan[e.path] == e && e.path != []
    requires ReachedAt(t0, t, c, src, plan, Dst(c, e))
    requires OwnNode(c, src, e, Look(t, Dst(c, e)), Look(u, Dst(c, e)))
    ensures ReachedAt(t0, u, c, src, plan, Dst(c, e))
  {
    var q := Dst(c, e);
    ListedAt(c, plan, e);
    DstParent(c, e);
    assert OwnNode(c, src, e, Look(t0, q), Look(t, q)) by {
      if q in t0 { NotDisplaced(t0, c, plan, e, q); }
      if Leftover(t, c, plan, q) { TempIsUnlisted(c, plan, q); }
      if AboveListed(c, plan, q) {
        var r :| r in plan && Above(q, Dst(c, plan[r]));
        DstOrder(c, e, plan[r]);
      }
    }
    OwnNodeComposes(c, src, e, Look(t0, q), Look(t, q), Look(u, q));
  }

  lemma CreatedStep(t0: Tree, t: Tree, u: Tree, c: Config, src: Source, plan: Plan, e: Entry, q: Path)
    requires ValidConfig(c) && RootReady(t0, c) && ValidPlan(plan)
    requires e.path in plan && plan[e.path] == e && e.path != []
    requires ReachedAt(t0, t, c, src, plan, q) && Above(c.root, q) && Above(q, Dst(c, e))
    requires q !in t && Look(u, q) == Some(NewDir(c))
    ensures ReachedAt(t0, u, c, src, plan, q)
  {
    if q in t0 {
      NotDisplaced(t0, c, plan, e, q);
      ListedDst(c, plan, q);
      DstOrder(c, plan[q[|c.root|..]], e);
    } else {
      assert AboveListed(c, plan, q);
    }
  }

  // ---- After a crash ----

  lemma ReachedListed(t0: Tree, t: Tree, c: Config, src: Source, plan: Plan, e: Entry)
    requires ValidConfig(c) && RootReady(t0, c) && ValidPlan(plan) && NoTempNames(plan)
    requires e.path in plan && plan[e.path] == e && e.path != []
    requires Reached(t0, t, c, src, plan)
    ensures OwnNode(c, src, e, Look(t0, Dst(c, e)), Look(t, Dst(c, e)))
  {
    var q := Dst(c, e);
    assert ReachedAt(t0, t, c, src, plan, q);
    ListedAt(c, plan, e);
    DstParent(c, e);
    if q in t0 { NotDisplaced(t0, c, plan, e, q); }
    if Leftover(t, c, plan, q) { TempIsUnlisted(c, plan, q); }
    if AboveListed(c, plan, q) {
      var r :| r in plan && Above(q, Dst(c, plan[r]));
      DstOrder(c, e, plan[r]);
    }
  }

  /** The bytes a listed file must have in the end. */
  ghost predicate RightBytes(t0: Tree, t: Tree, c: Config, src: Source, e: Entry) {
    var p := Dst(c, e);
    e.kind.Regular? && e.path in src && src[e.path].File? ==>
      if Keeps(src[e.path], Look(t0, p)) then Look(t, p) == Look(t0, p)
      else p in t && t[p].File? && t[p].data == src[e.path].data
  }

  /** At any moment of any run, with any failures, a listed file holds its old
      node, nothing, or all the source's bytes; a file that was already as new
      and of the same size is never touched. */
  lemma PublicationIsAtomic(t0: Tree, t: Tree, c: Config, src: Source, plan: Plan, e: Entry)
    requires ValidConfig(c) && RootReady(t0, c) && ValidPlan(plan) && NoTempNames(plan)
    requires e.path in plan && plan[e.path] == e && e.kind.Regular?
    requires Reached(t0, t, c, src, plan)
    ensures var was, now := Look(t0, Dst(c, e)), Look(t, Dst(c, e));
            now == was || (e.path in src && src[e.path].File? && !Keeps(src[e.path], was)
                           && (now.None? || (now.value.File? && now.value.data == src[e.path].data)))
  {
    ReachedListed(t0, t, c, src, plan, e);
  }

  lemma CrashKeepsUnobstructed(t0: Tree, t: Tree, c: Config, src: Source, plan: Plan)
    requires ValidConfig(c) && RootReady(t0, c) && ValidPlan(plan) && NoTempNames(plan)
    requires Reached(t0, t, c, src, plan) && Unobstructed(t0, c, plan)
    ensures Unobstructed(t, c, plan)
  {
    forall r | r in plan && r != [] ensures !ObstacleAt(t, c, plan[r]) {
      assert !ObstacleAt(t0, c, plan[r]);
      ReachedListed(t0, t, c, src, plan, plan[r]);
      ConfigDirs(c);
    }
  }

  /** What a stopped run leaves above a listed path: what was there, or a
      directory of its own. */
  lemma CrashedWay(t0: Tree, t: Tree, c: Config, src: Source, plan: Plan, e: Entry, q: Path)
    requires ValidConfig(c) && RootReady(t0, c) && ValidPlan(plan) && NoTempNames(plan)
    requires Reached(t0, t, c, src, plan) && e.path in plan && plan[e.path] == e
    requires Above(c.root, q) && Above(q, Dst(c, e)) && !Listed(c, plan, q)
    ensures q in t0 ==> Look(t, q) == Look(t0, q)
    ensures q !in t0 && q in t ==> t[q] == NewDir(c)
  {
    assert ReachedAt(t0, t, c, src, plan, q);
    assert AboveListed(c, plan, q) && e.path != [];
    if Leftover(t, c, plan, q) { TempIsUnlisted(c, plan, q); }
    if q in t0 { NotDisplaced(t0, c, plan, e, q); }
  }

  /** Directories at and above a listed directory, or above any entry, stay. */
  lemma CrashKeepsDir(t0: Tree, t: Tree, c: Config, src: Source, plan: Plan, e: Entry, x: Path)
    requires ValidConfig(c) && RootReady(t0, c) && ValidPlan(plan) && NoTempNames(plan)
    requires Reached(t0, t, c, src, plan) && e.path in plan && plan[e.path] == e
    requires Above(c.root, x) && (Above(x, Dst(c, e)) || (x == Dst(c, e) && e.kind.Directory?))
    ensures IsDir(t0, x) ==> IsDir(t, x)
    ensures x !in t0 && x in t ==> IsDir(t, x)
  {
    ConfigDirs(c);
    if x == Dst(c, e) {
      ListedAt(c, plan, e);
      ReachedListed(t0, t, c, src, plan, e);
    } else if Listed(c, plan, x) {
      ListedDst(c, plan, x);
      var f := plan[x[|c.root|..]];
      DstOrder(c, f, e);
      ReachedListed(t0, t, c, src, plan, f);
    } else {
      CrashedWay(t0, t, c, src, plan, e, x);
    }
  }

  /** What is to be done after the stop was to be done before, but for a link:
      where reading it back fails, a right one may have been taken away. */
  lemma CrashedDemands(t0: Tree, t: Tree, c: Config, src: Source, plan: Plan, e: Entry)
    requires ValidConfig(c) && RootReady(t0, c) && ValidPlan(plan) && NoTempNames(plan)
    requires Reached(t0, t, c, src, plan) && e.path in plan && plan[e.path] == e
    ensures Demanding(t, c, src, e) && !e.kind.Symlink? ==> Demanding(t0, c, src, e)
  {
    if e.path != [] { ReachedListed(t0, t, c, src, plan, e); }
  }

  /** Every directory above the entry is secure. */
  ghost predicate WaySecure(t: Tree, c: Config, e: Entry) {
    forall q | q in t && Above(c.root, q) && Above(q, Dst(c, e)) :: t[q].Dir? && Secure(t[q])
  }

  /** Nothing makes a handler fail, not even where a right link is to be made
      again. */
  ghost predicate Sturdy(t: Tree, c: Config, src: Source, plan: Plan) {
    Fit(t, c, src, plan) && forall r | r in plan && plan[r].kind.Symlink? :: WaySecure(t, c, plan[r])
  }

  lemma SturdyAbove(t0: Tree, c: Config, src: Source, plan: Plan, e: Entry, q: Path)
    requires Sturdy(t0, c, src, plan) && e.path in plan && plan[e.path] == e && !e.kind.Other?
    requires q in t0 && Above(c.root, q) && Above(q, Dst(c, e))
    ensures t0[q].Dir? && (Demanding(t0, c, src, e) || e.kind.Symlink? ==> Secure(t0[q]))
    ensures e.kind.Directory? && PublicWritable(t0[q]) ==> IsDir(t0, Next(q, Dst(c, e)))
  {
    assert FitAt(t0, c, src, plan[e.path]) && Bearable(t0, c, src, e, q);
    if e.kind.Symlink? { assert WaySecure(t0, c, plan[e.path]); }
  }

  lemma CrashedAbove(t0: Tree, t: Tree, c: Config, src: Source, plan: Plan, e: Entry, q: Path)
    requires ValidConfig(c) && RootReady(t0, c) && ValidPlan(plan) && NoTempNames(plan)
    requires Reached(t0, t, c, src, plan) && Sturdy(t0, c, src, plan)
    requires e.path in plan && plan[e.path] == e && !e.kind.Other?
    requires q in t && Above(c.root, q) && Above(q, Dst(c, e))
    ensures Bearable(t, c, src, e, q) && (e.kind.Symlink? ==> Secure(t[q]))
  {
    ConfigDirs(c);
    if Listed(c, plan, q) {
      ListedDst(c, plan, q);
      var f := plan[q[|c.root|..]];
      DstOrder(c, f, e);
      assert FitAt(t0, c, src, plan[f.path]);
      ReachedListed(t0, t, c, src, plan, f);
    } else {
      CrashedWay(t0, t, c, src, plan, e, q);
      if q in t0 {
        SturdyAbove(t0, c, src, plan, e, q);
        CrashedDemands(t0, t, c, src, plan, e);
        if e.kind.Directory? { CrashKeepsDir(t0, t, c, src, plan, e, Next(q, Dst(c, e))); }
      }
    }
  }

  lemma CrashKeepsSturdy(t0: Tree, t: Tree, c: Config, src: Source, plan: Plan)
    requires ValidConfig(c) && RootReady(t0, c) && ValidPlan(plan) && NoTempNames(plan)
    requires Reached(t0, t, c, src, plan) && Sturdy(t0, c, src, plan)
    ensures Sturdy(t, c, src, plan)
  {
    forall r | r in plan && !plan[r].kind.Other?
      ensures FitAt(t, c, src, plan[r]) && (plan[r].kind.Symlink? ==> WaySecure(t, c, plan[r]))
    {
      var e := plan[r];
      forall q | q in t && Above(c.root, q) && Above(q, Dst(c, e))
        ensures Bearable(t, c, src, e, q) && (e.kind.Symlink? ==> Secure(t[q]))
      {
        CrashedAbove(t0, t, c, src, plan, e, q);
      }
      assert FitAt(t0, c, src, plan[e.path]);
      ConfigDirs(c);
      if e.path != [] { ReachedListed(t0, t, c, src, plan, e); } else { assert e.kind.Directory?; }
    }
  }

  lemma RecoveredBytes(t0: Tree, t: Tree, u: Tree, c: Config, src: Source, plan: Plan, e: Entry)
    requires ValidConfig(c) && RootReady(t0, c) && ValidPlan(plan) && NoTempNames(plan)
    requires e.path in plan && plan[e.path] == e
    requires Reached(t0, t, c, src, plan)
    requires Look(u, Dst(c, e)) == Expected(t, c, src, plan, Dst(c, e))
    ensures RightBytes(t0, u, c, src, e)
  {
    if e.kind.Regular? {
      ReachedListed(t0, t, c, src, plan, e);
      ListedAt(c, plan, e);
    }
  }

  /** A crash, or any failures, anywhere in a run over a tree without
      hindrances: one more undisturbed pass has no error and gives every file its
      right bytes. */
  lemma OnePassRecovers(t0: Tree, t: Tree, c: Config, src: Source, plan: Plan, list: seq<Entry>)
    requires ValidConfig(c) && RootReady(t0, c) && ValidPlan(plan) && NoTempNames(plan) && SourceStable(src, plan)
    requires Sturdy(t0, c, src, plan) && Reached(t0, t, c, src, plan) && Covers(list, plan)
    ensures ErrorFree(Run(t, c, src, list).outs)
    ensures forall r | r in plan :: RightBytes(t0, Run(t, c, src, list).tree, c, src, plan[r])
  {
    CrashKeepsSturdy(t0, t, c, src, plan);
    FitPassReachesGoal(t, c, src, plan, list);
    forall r | r in plan ensures RightBytes(t0, Run(t, c, src, list).tree, c, src, plan[r]) {
      RecoveredBytes(t0, t, Run(t, c, src, list).tree, c, src, plan, plan[r]);
    }
  }

  /** What lies above a listed link without being listed is secure. */
  ghost predicate LinksReachable(t: Tree, c: Config, plan: Plan) {
    forall r, q | r in plan && plan[r].kind.Symlink? && q in t && Stray(c, plan, q) && Above(q, Dst(c, plan[r])) ::
      t[q].Dir? && Secure(t[q])
  }

  lemma CrashKeepsPassable(t0: Tree, t: Tree, c: Config, src: Source, plan: Plan)
    requires ValidConfig(c) && RootReady(t0, c) && ValidPlan(plan) && NoTempNames(plan)
    requires Reached(t0, t, c, src, plan) && Passable(t0, c, src, plan) && LinksReachable(t0, c, plan)
    ensures Passable(t, c, src, plan)
  {
    forall r, q | r in plan && !plan[r].kind.Other? && q in t && Stray(c, plan, q) && Above(q, Dst(c, plan[r]))
      ensures Tolerable(t, c, src, plan, plan[r], q)
    {
      CrashedStray(t0, t, c, src, plan, plan[r], q);
    }
  }

  lemma CrashedStray(t0: Tree, t: Tree, c: Config, src: Source, plan: Plan, e: Entry, q: Path)
    requires ValidConfig(c) && RootReady(t0, c) && ValidPlan(plan) && NoTempNames(plan)
    requires Reached(t0, t, c, src, plan) && Passable(t0, c, src, plan) && LinksReachable(t0, c, plan)
    requires e.path in plan && plan[e.path] == e && !e.kind.Other?
    requires q in t && Stray(c, plan, q) && Above(q, Dst(c, e))
    ensures Tolerable(t, c, src, plan, e, q)
  {
    ConfigDirs(c);
    CrashedWay(t0, t, c, src, plan, e, q);
    if q in t0 {
      assert Tolerable(t0, c, src, plan, plan[e.path], q);
      CrashedDemands(t0, t, c, src, plan, e);
      if e.kind.Directory? { CrashKeepsDir(t0, t, c, src, plan, e, Next(q, Dst(c, e))); }
    }
  }

  /** The same in two passes, whenever two are enough without a crash, if the
      directories above listed links that are not listed are secure. */
  lemma TwoPassesRecover(t0: Tree, t: Tree, c: Config, src: Source, plan: Plan, first: seq<Entry>, second: seq<Entry>)
    requires ValidConfig(c) && RootReady(t0, c) && ValidPlan(plan) && NoTempNames(plan)
    requires Finishable(t0, c, src, plan) && LinksReachable(t0, c, plan) && Reached(t0, t, c, src, plan)
    requires Covers(first, plan) && Covers(second, plan)
    ensures var again := Run(Run(t, c, src, first).tree, c, src, second);
            ErrorFree(again.outs) && forall r | r in plan :: RightBytes(t0, again.tree, c, src, plan[r])
  {
    CrashKeepsUnobstructed(t0, t, c, src, plan);
    CrashKeepsPassable(t0, t, c, src, plan);
    TwoPassesReachGoal(t, c, src, plan, first, second);
    var u := Run(Run(t, c, src, first).tree, c, src, second).tree;
    forall r | r in plan ensures RightBytes(t0, u, c, src, plan[r]) {
      RecoveredBytes(t0, t, u, c, src, plan, plan[r]);
    }
  }

  // ---- Exactly when recovery is certain ----

  /** Where reading a right link back fails it is taken away; under a directory
      open to others no later pass makes it again. */
  lemma LinkGetsLost(t0: Tree, c: Config, src: Source, plan: Plan, e: Entry, q: Path)
    requires ValidConfig(c) && RootReady(t0, c) && ValidPlan(plan) && NoTempNames(plan)
    requires e.path in plan && plan[e.path] == e && e.kind.Symlink? && Look(t0, Dst(c, e)) == Some(Link(e.target))
    requires IsDir(t0, q) && Stray(c, plan, q) && Above(q, Dst(c, e)) && !Secure(t0[q])
    ensures var t := RemoveTree(t0, Dst(c, e)); Reached(t0, t, c, src, plan) && Hopeless(t, c, src, plan, e, q)
  {
    var p := Dst(c, e);
    var t := RemoveTree(t0, p);
    RemoveTreeWellFormed(t0, p);
    forall x ensures FramedAt(t0, t, c, src, e, x) {
      if Above(p, x) && x in t0 { AncestorsAreDirs(t0, x, p); }
    }
    assert Reached(t0, t0, c, src, plan);
    ReachedStays(t0, t0, t, c, src, plan, e);
    assert Look(t, q) == Look(t0, q) by { assert !(p <= q); }
  }

  lemma LostLinkBlocks(t0: Tree, c: Config, src: Source, plan: Plan, e: Entry, q: Path) returns (t: Tree)
    requires ValidConfig(c) && RootReady(t0, c) && ValidPlan(plan) && NoTempNames(plan)
    requires e.path in plan && plan[e.path] == e && e.kind.Symlink? && !Demanding(t0, c, src, e)
    requires IsDir(t0, q) && Stray(c, plan, q) && Above(q, Dst(c, e)) && !Secure(t0[q])
    ensures Reached(t0, t, c, src, plan) && Blocked(t, c, src, plan)
  {
    LinkGetsLost(t0, c, src, plan, e, q);
    t := RemoveTree(t0, Dst(c, e));
    assert Hopeless(t, c, src, plan, plan[e.path], q);
  }

  /** From a tree without hindrances, one pass recovers from every state a
      stopped run may be in, if and only if all links could be made again. */
  lemma OnePassRecoversIff(t0: Tree, c: Config, src: Source, plan: Plan, list: seq<Entry>)
    requires ValidConfig(c) && RootReady(t0, c) && ValidPlan(plan) && NoTempNames(plan) && SourceStable(src, plan)
    requires Fit(t0, c, src, plan) && Covers(list, plan)
    ensures (forall t | Reached(t0, t, c, src, plan) :: ErrorFree(Run(t, c, src, list).outs)) <==>
            Sturdy(t0, c, src, plan)
  {
    if Sturdy(t0, c, src, plan) {
      forall t | Reached(t0, t, c, src, plan) ensures ErrorFree(Run(t, c, src, list).outs) {
        OnePassRecovers(t0, t, c, src, plan, list);
      }
    } else {
      var r :| r in plan && plan[r].kind.Symlink? && !WaySecure(t0, c, plan[r]);
      var e := plan[r];
      var q :| q in t0 && Above(c.root, q) && Above(q, Dst(c, e)) && !(t0[q].Dir? && Secure(t0[q]));
      assert FitAt(t0, c, src, e) && Bearable(t0, c, src, e, q);
      if Listed(c, plan, q) {
        SafeListed(t0, c, src, plan, e, q);
      } else {
        var t := LostLinkBlocks(t0, c, src, plan, e, q);
        BlockedOutlivesRun(t, c, src, plan, list);
      }
    }
  }

  lemma SafeListed(t0: Tree, c: Config, src: Source, plan: Plan, e: Entry, q: Path)
    requires ValidPlan(plan) && Fit(t0, c, src, plan) && e.path in plan && plan[e.path] == e
    requires q in t0 && Above(c.root, q) && Above(q, Dst(c, e)) && Listed(c, plan, q)
    ensures t0[q].Dir? && Secure(t0[q])
  {
    ListedDst(c, plan, q);
    var f := plan[q[|c.root|..]];
    DstOrder(c, f, e);
    assert FitAt(t0, c, src, plan[f.path]);
  }

  /** From a tree from which two passes are enough, they recover from every
      state a stopped run may be in, if and only if the same holds of the links
      below directories that are not listed. */
  lemma TwoPassesRecoverIff(t0: Tree, c: Config, src: Source, plan: Plan, first: seq<Entry>, second: seq<Entry>)
    requires ValidConfig(c) && RootReady(t0, c) && ValidPlan(plan) && NoTempNames(plan)
    requires Finishable(t0, c, src, plan) && Covers(first, plan) && Covers(second, plan)
    ensures (forall t | Reached(t0, t, c, src, plan) ::
               ErrorFree(Run(Run(t, c, src, first).tree, c, src, second).outs)) <==>
            LinksReachable(t0, c, plan)
  {
    if LinksReachable(t0, c, plan) {
      forall t | Reached(t0, t, c, src, plan)
        ensures ErrorFree(Run(Run(t, c, src, first).tree, c, src, second).outs)
      {
        TwoPassesRecover(t0, t, c, src, plan, first, second);
      }
    } else {
      var r, q :| r in plan && plan[r].kind.Symlink? && q in t0 && Stray(c, plan, q) && Above(q, Dst(c, plan[r]))
                  && !(t0[q].Dir? && Secure(t0[q]));
      assert Tolerable(t0, c, src, plan, plan[r], q);
      var t := LostLinkBlocks(t0, c, src, plan, plan[r], q);
      RunFacts(t, c, src, plan, first);
      BlockedOutlivesRun(t, c, src, plan, first);
      BlockedOutlivesRun(Run(t, c, src, first).tree, c, src, plan, second);
    }
  }
}
