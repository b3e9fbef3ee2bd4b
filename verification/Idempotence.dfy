/** An error-free run settles every entry it handled, and a settled entry is
    left alone by every later run. */
module Idempotence {
  import opened Tree
  import opened PathGuard
  import opened Mirror

  type Plan = map<Path, Entry>

  /** One entry per path, and nothing listed below a non-directory. */
  ghost predicate ValidPlan(plan: Plan) {
    && (forall r | r in plan :: plan[r].path == r && ValidEntry(plan[r]))
    && (forall r, s | r in plan && s in plan && Above(r, s) :: plan[r].kind.Directory?)
  }

  /** Every entry of the list is the plan's entry for its path. */
  ghost predicate Drawn(list: seq<Entry>, plan: Plan) {
    forall e | e in list :: e.path in plan && plan[e.path] == e
  }

  ghost predicate Settled(t: Tree, c: Config, src: Source, e: Entry) {
    var p := Dst(c, e);
    match e.kind
    case Directory =>
      && p in t && t[p].Dir?
      && (e.path != [] ==> t[p].perm == DirPerm(c))
      && forall q | q in t && q != [] && Upto(q, p) :: t[q].Dir? ==> Secure(t[q])
    case Symlink => Look(t, p) == Some(Link(e.target))
    case Regular =>
      if e.path in src then
        && src[e.path].File? && p in t && t[p].File?
        && |src[e.path].data| == |t[p].data| && src[e.path].mtime <= t[p].mtime
      else Unlinked(t, p)
    case Other => true
  }

  /** How a settled entry is reported. No bytes are moved and no error occurs. */
  predicate Reported(t: Tree, c: Config, src: Source, e: Entry, out: Outcome) {
    match e.kind
    case Directory => out == if e.path == [] then Processed else Uptodate
    case Symlink => out == Uptodate
    case Regular =>
      if e.path !in src then out == Disappeared
      else (out == Uptodate && SameThere(t, c, src, e)) || (out == Processed && NewerThere(t, c, src, e))
    case Other => out == Skipped
  }

  lemma SettledIsQuiet(t: Tree, c: Config, src: Source, e: Entry)
    requires ValidConfig(c) && ValidEntry(e) && RootReady(t, c) && Settled(t, c, src, e)
    ensures Route(t, c, src, e).tree == t && Reported(t, c, src, e, Route(t, c, src, e).out)
  {
    match e.kind
    case Directory => SettledDirectory(t, c, src, e);
    case Symlink => SettledLeaf(t, c, src, e);
    case Regular => SettledLeaf(t, c, src, e);
    case Other =>
  }

  lemma SettledDirectory(t: Tree, c: Config, src: Source, e: Entry)
    requires ValidConfig(c) && ValidEntry(e) && RootReady(t, c) && Settled(t, c, src, e) && e.kind.Directory?
    ensures Route(t, c, src, e).tree == t && Reported(t, c, src, e, Route(t, c, src, e).out)
  {
    var p := Dst(c, e);
    if e.path != [] { DstParent(c, e); } else { assert p == c.root; }
    forall q | q in t && Above(q, p) ensures t[q].Dir? { AncestorsAreDirs(t, p, q); }
    PrivateAt(t, p);
    if p != [] {
      forall q ensures Upto(q, Parent(p)) ==> Upto(q, p) { PrefixOfParent(p, q); }
      PrefixOfParent(p, Parent(p));
      forall q | q in t && Above(q, Parent(p)) ensures t[q].Dir? { AncestorsAreDirs(t, Parent(p), q); }
      PrivateAt(t, Parent(p));
    }
  }

  lemma PrivateAt(t: Tree, p: Path)
    requires p in t && t[p].Dir?
    requires forall q | q in t && Above(q, p) :: t[q].Dir?
    requires forall q | q in t && q != [] && Upto(q, p) :: t[q].Dir? ==> Secure(t[q])
    ensures Unlinked(t, p) && Private(t, p, true)
  {
  }

  lemma SettledLeaf(t: Tree, c: Config, src: Source, e: Entry)
    requires ValidConfig(c) && ValidEntry(e) && RootReady(t, c) && Settled(t, c, src, e)
    requires e.kind.Symlink? || e.kind.Regular?
    ensures Route(t, c, src, e).tree == t && Reported(t, c, src, e, Route(t, c, src, e).out)
  {
    var p := Dst(c, e);
    DstParent(c, e);
    if p in t {
      forall q | q in t && Above(q, p) ensures t[q].Dir? { AncestorsAreDirs(t, p, q); }
    }
    forall q | Above(q, Parent(p)) ensures Above(q, p) {}
  }

  lemma SuccessSettles(t: Tree, c: Config, src: Source, e: Entry)
    requires ValidConfig(c) && ValidEntry(e) && RootReady(t, c)
    requires !Route(t, c, src, e).out.Failed?
    ensures Settled(Route(t, c, src, e).tree, c, src, e)
  {
    match e.kind {
      case Directory => DirectorySettles(t, c, e);
      case Symlink => LinkSettles(t, c, e);
      case Regular => FileSettles(t, c, src, e);
      case Other =>
    }
  }

  lemma DirectorySettles(t: Tree, c: Config, e: Entry)
    requires ValidConfig(c) && ValidEntry(e) && RootReady(t, c) && e.kind.Directory? && Unlinked(t, Dst(c, e))
    requires !MakeDirectory(t, c, Dst(c, e)).out.Failed?
    ensures Settled(MakeDirectory(t, c, Dst(c, e)).tree, c, map[], e)
  {
  }

  lemma LinkSettles(t: Tree, c: Config, e: Entry)
    requires e.kind.Symlink? && !MakeLink(t, c, Dst(c, e), e.target).out.Failed?
    ensures Settled(MakeLink(t, c, Dst(c, e), e.target).tree, c, map[], e)
  {
  }

  lemma FileSettles(t: Tree, c: Config, src: Source, e: Entry)
    requires e.kind.Regular? && Unlinked(t, Dst(c, e)) && !CopyRegular(t, c, src, e, Dst(c, e)).out.Failed?
    ensures Settled(CopyRegular(t, c, src, e, Dst(c, e)).tree, c, src, e)
  {
    var p := Dst(c, e);
    if e.path in src && src[e.path].File? && !Keeps(src[e.path], Look(t, p)) {
      CopySettles(RemoveTree(if p in t then t else WithParents(t, c, p), p), c, src, e);
    }
  }

  lemma CopySettles(t: Tree, c: Config, src: Source, e: Entry)
    requires e.kind.Regular? && e.path in src && src[e.path].File?
    ensures Settled(t[Dst(c, e) := Copied(c, src[e.path], e)], c, src, e)
  {
  }

  lemma DstOrder(c: Config, e: Entry, f: Entry)
    ensures Above(Dst(c, e), Dst(c, f)) <==> Above(e.path, f.path)
    ensures Dst(c, e) == Dst(c, f) <==> e.path == f.path
  {
    assert Dst(c, e)[|c.root|..] == e.path && Dst(c, f)[|c.root|..] == f.path;
    if Above(e.path, f.path) {
      assert f.path[..|e.path|] == e.path;
      assert Dst(c, f)[..|Dst(c, e)|] == Dst(c, e);
    }
    if Above(Dst(c, e), Dst(c, f)) {
      assert f.path[..|e.path|] == Dst(c, f)[|c.root|..|c.root| + |e.path|] == e.path;
    }
  }

  /** What any entry leaves at a path other than its own. */
  lemma EditElsewhere(t: Tree, c: Config, src: Source, f: Entry)
    requires ValidConfig(c) && ValidEntry(f) && RootReady(t, c)
    ensures var u := Route(t, c, src, f).tree; u == t || (f.path != [] && Edited(t, u, c, Dst(c, f)))
  {
    match f.kind {
      case Directory => DirectoryEdits(t, c, src, f);
      case Symlink => LinkEdits(t, c, src, f);
      case Regular => RegularEdits(t, c, src, f);
      case Other =>
    }
  }

  lemma SettledStays(t: Tree, c: Config, src: Source, plan: Plan, e: Entry, f: Entry)
    requires ValidConfig(c) && RootReady(t, c) && ValidPlan(plan) && Drawn([e, f], plan)
    requires Settled(t, c, src, e) && !Route(t, c, src, f).out.Failed?
    ensures Settled(Route(t, c, src, f).tree, c, src, e)
  {
    var u := Route(t, c, src, f).tree;
    assert e in [e, f] && f in [e, f];
    SuccessSettles(t, c, src, f);
    if e != f && u != t {
      var p, g := Dst(c, e), Dst(c, f);
      EditElsewhere(t, c, src, f);
      DstOrder(c, e, f);
      DstOrder(c, f, e);
      if f.kind.Directory? { DirectoryEdits(t, c, src, f); }
      AllAncestors(t);
      assert p in t ==> Look(u, p) == Look(t, p);
      match e.kind {
        case Directory =>
          forall q | q in u && q != [] && Upto(q, p) ensures u[q].Dir? ==> Secure(u[q]) {
            if q != p {
              PrefixOfParent(p, q);
              assert Above(q, p);
            }
            if q == g { assert Upto(g, g); } else { assert Look(u, q) == Look(t, q); }
          }
        case Regular =>
          if e.path !in src {
            forall q | q in u && Above(q, p) ensures u[q].Dir? {
              if q != g { assert Look(u, q) == Look(t, q) || Look(u, q) == Some(NewDir(c)); }
            }
            assert Look(u, p) == Look(t, p) || Look(u, p) == Some(NewDir(c));
          }
        case _ =>
      }
    }
  }

  // ---- Whole runs ----

  lemma {:induction false} RunFacts(t: Tree, c: Config, src: Source, plan: Plan, list: seq<Entry>)
    requires ValidConfig(c) && RootReady(t, c) && ValidPlan(plan) && Drawn(list, plan)
    ensures RootReady(Run(t, c, src, list).tree, c)
    ensures |Run(t, c, src, list).outs| == |list|
    decreases |list|
  {
    if list != [] {
      var k := |list| - 1;
      assert list[k] in list && forall e | e in list[..k] :: e in list;
      RunFacts(t, c, src, plan, list[..k]);
      RouteFrame(Run(t, c, src, list[..k]).tree, c, src, list[k]);
    }
  }

  lemma {:induction false} ErrorFreeRunSettles(t: Tree, c: Config, src: Source, plan: Plan, list: seq<Entry>)
    requires ValidConfig(c) && RootReady(t, c) && ValidPlan(plan) && Drawn(list, plan)
    requires ErrorFree(Run(t, c, src, list).outs)
    ensures forall e | e in list :: Settled(Run(t, c, src, list).tree, c, src, e)
    decreases |list|
  {
    if list != [] {
      var k := |list| - 1;
      var before := Run(t, c, src, list[..k]);
      var last := Route(before.tree, c, src, list[k]);
      assert list[k] in list && forall e | e in list[..k] :: e in list;
      assert before.outs + [last.out] == Run(t, c, src, list).outs;
      assert last.out in Run(t, c, src, list).outs;
      ErrorFreeRunSettles(t, c, src, plan, list[..k]);
      RunFacts(t, c, src, plan, list[..k]);
      SuccessSettles(before.tree, c, src, list[k]);
      forall e | e in list ensures Settled(last.tree, c, src, e) {
        if e != list[k] {
          assert e in list[..k];
          SettledStays(before.tree, c, src, plan, e, list[k]);
        }
      }
    }
  }

  /** After an error-free run the owner can list, change and search every listed
      directory, and nobody else can change it. */
  lemma ListedDirectoriesAreUsable(t: Tree, c: Config, src: Source, plan: Plan, list: seq<Entry>, e: Entry, what: Right)
    requires ValidConfig(c) && RootReady(t, c) && ValidPlan(plan) && Drawn(list, plan)
    requires ErrorFree(Run(t, c, src, list).outs) && e in list && e.kind.Directory? && e.path != []
    ensures var u := Run(t, c, src, list).tree; var p := Dst(c, e);
      p in u && u[p].Dir? && May(u[p].perm, Owner, what) && !OpenToOthers(u[p])
  {
    ErrorFreeRunSettles(t, c, src, plan, list);
    DirectoryBits(c, Owner, what);
    DirectoryBits(c, Group, Write);
    DirectoryBits(c, Others, Write);
    NobodyElse(c);
  }

  lemma NobodyElse(c: Config)
    requires ValidConfig(c)
    ensures !May(c.fileMode, Group, Write) && !May(c.fileMode, Others, Write)
  {
    MasksAreBits(Dir(c.fileMode, false, true));
  }

  lemma {:induction false} SettledRunIsQuiet(t: Tree, c: Config, src: Source, list: seq<Entry>)
    requires ValidConfig(c) && RootReady(t, c)
    requires forall e | e in list :: ValidEntry(e) && Settled(t, c, src, e)
    ensures var run := Run(t, c, src, list);
            && run.tree == t && |run.outs| == |list|
            && forall i | 0 <= i < |list| :: Reported(t, c, src, list[i], run.outs[i])
    decreases |list|
  {
    if list != [] {
      var k := |list| - 1;
      SettledRunIsQuiet(t, c, src, list[..k]);
      SettledIsQuiet(t, c, src, list[k]);
    }
  }

  /** After an error-free run a second run over any of the entries, in any
      order, changes nothing and sends nothing. */
  lemma SecondRunIsQuiet(t: Tree, c: Config, src: Source, plan: Plan, list: seq<Entry>, again: seq<Entry>)
    requires ValidConfig(c) && RootReady(t, c) && ValidPlan(plan) && Drawn(list, plan)
    requires ErrorFree(Run(t, c, src, list).outs)
    requires forall e | e in again :: e in list
    ensures var first := Run(t, c, src, list); var second := Run(first.tree, c, src, again);
            && second.tree == first.tree && |second.outs| == |again|
            && forall i | 0 <= i < |again| :: Reported(first.tree, c, src, again[i], second.outs[i])
  {
    RunFacts(t, c, src, plan, list);
    ErrorFreeRunSettles(t, c, src, plan, list);
    SettledRunIsQuiet(Run(t, c, src, list).tree, c, src, again);
  }
}
