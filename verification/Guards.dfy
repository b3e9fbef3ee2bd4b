/** The guards as the program runs them: a walk over the components that
    carries state and stops at the first missing one. */
module Guards {
  import opened Tree
  import opened PathGuard
  import D = Disk

  /** What the walk knows after `i` components. */
  ghost predicate Walked(t: Tree, path: Path, i: nat) {
    && i <= |path|
    && path[..i] in t && !t[path[..i]].Link?
    && forall q | q in t && Above(q, path[..i]) :: t[q].Dir?
  }

  /** The next component, looked up without following a final link. */
  lemma NextComponent(t: Tree, path: Path, i: nat)
    requires WellFormed(t) && i < |path| && Walked(t, path, i)
    ensures NoLinkAbove(t, path[..i + 1])
    ensures D.LiteralStat(t, path[..i + 1]) ==
            if t[path[..i]].File? then D.Fault(D.Notdir)
            else if path[..i + 1] in t then D.Found(t[path[..i + 1]])
            else D.Fault(D.Noent)
    ensures Unlinked(t, path) ==> t[path[..i]].Dir?
    ensures Unlinked(t, path) && path[..i + 1] in t ==> !t[path[..i + 1]].Link?
    ensures t[path[..i]].Dir? && path[..i + 1] in t && !t[path[..i + 1]].Link? ==> Walked(t, path, i + 1)
    ensures t[path[..i]].Dir? && path[..i + 1] !in t ==> Unlinked(t, path) && path !in t
  {
    var cur, next := path[..i], path[..i + 1];
    assert Parent(next) == cur && Above(cur, path);
    forall q ensures Above(q, next) <==> q == cur || Above(q, cur) {
      PrefixOfParent(next, q);
      assert Upto(q, cur) <==> q == cur || Above(q, cur);
    }
    if t[cur].File? { assert FileAbove(t, next); }
    if next != path { assert Above(next, path); } else { assert i + 1 == |path|; }
    if t[cur].Dir? && next !in t {
      forall q | q in t && Above(q, path) ensures t[q].Dir? {
        if |q| > i {
          assert Upto(next, q) by { PrefixesCompare(path, next, q); }
          assert q == next || Above(next, q);
          AncestorsAreDirs(t, q, next);
        } else {
          PrefixesCompare(path, q, cur);
          assert q == cur || Above(q, cur);
        }
      }
      if path in t { assert next == path || Above(next, path); AncestorsAreDirs(t, path, next); }
    }
  }

  lemma PlainPrefix(path: Path, i: nat)
    requires Plain(path) && i <= |path|
    ensures Plain(path[..i])
  {
  }

  /** `ensureNoSymlinkPath` with a missing tail allowed. */
  method EnsureNoSymlinkPath(disk: D.Disk, path: Path) returns (ok: bool)
    requires disk.Valid() && Plain(path)
    ensures ok ==> Unlinked(disk.tree, path)
    ensures disk.healthy && Unlinked(disk.tree, path) ==> ok
  {
    var i := 0;
    while i < |path|
      invariant Walked(disk.tree, path, i)
    {
      NextComponent(disk.tree, path, i);
      PlainPrefix(path, i + 1);
      var info := disk.Lstat(path[..i + 1]);
      match info {
        case Found(node) => if node.Link? { return false; }
        case Fault(errno) => return errno.Noent?;
      }
      i := i + 1;
    }
    assert path[..|path|] == path;
    return true;
  }

  ghost predicate SecureWay(t: Tree, path: Path, i: nat) {
    i <= |path| && forall q | q in t && q != [] && Upto(q, path[..i]) && t[q].Dir? :: Secure(t[q])
  }

  lemma SecureStep(t: Tree, path: Path, i: nat)
    requires WellFormed(t) && i < |path| && Walked(t, path, i) && SecureWay(t, path, i)
    ensures SecureWay(t, path, i + 1) <==> (path[..i + 1] in t && t[path[..i + 1]].Dir? ==> Secure(t[path[..i + 1]]))
    ensures Private(t, path, true) ==> SecureWay(t, path, i + 1)
    ensures path[..i + 1] !in t && t[path[..i]].Dir? ==>
              (Private(t, path, true) <==> (i == 0 || !PublicWritable(t[path[..i]])))
  {
    var cur, next := path[..i], path[..i + 1];
    assert Parent(next) == cur;
    forall q ensures Upto(q, next) <==> q == next || Upto(q, cur) { PrefixOfParent(next, q); }
    assert Upto(next, next);
    forall q | Upto(q, next) ensures Upto(q, path) {}
    if next !in t && t[cur].Dir? {
      NextComponent(t, path, i);
      assert Edge(t, cur, path) && Above(cur, path);
      forall q | q in t && Upto(q, path) ensures Upto(q, cur) {
        if |q| > i {
          PrefixesCompare(path, next, q);
          assert q == next || Above(next, q);
          AncestorsAreDirs(t, q, next);
        } else {
          PrefixesCompare(path, q, cur);
        }
      }
      forall q | q in t && Edge(t, q, path) ensures q == cur {
        assert Upto(q, path);
        if |q| < i {
          assert path[..|q| + 1] == cur[..|q| + 1];
          var r := path[..|q| + 1];
          assert r == cur || Above(r, cur);
          if r != cur { AncestorsAreDirs(t, cur, r); }
        }
      }
    }
  }

  ghost predicate Checked(t: Tree, path: Path, i: nat, lastPublic: bool) {
    && Walked(t, path, i) && SecureWay(t, path, i)
    && lastPublic == (i > 0 && t[path[..i]].Dir? && PublicWritable(t[path[..i]]))
  }

  /** What the next component decides. */
  lemma PrivateStep(t: Tree, path: Path, i: nat, lastPublic: bool, tail: bool)
    requires WellFormed(t) && i < |path| && Checked(t, path, i, lastPublic)
    ensures var next := path[..i + 1]; var info := D.LiteralStat(t, next);
            && NoLinkAbove(t, next)
            && (info.Fault? ==> (Private(t, path, tail) <==> tail && info.errno.Noent? && !lastPublic))
            && (info.Found? && info.node.Link? ==> !Private(t, path, tail))
            && (info.Found? && info.node.Dir? && !Secure(info.node) ==> !Private(t, path, tail))
            && (info.Found? && info.node.File? ==> Checked(t, path, i + 1, false))
            && (info.Found? && info.node.Dir? && Secure(info.node) ==>
                  Checked(t, path, i + 1, PublicWritable(info.node)))
  {
    NextComponent(t, path, i);
    SecureStep(t, path, i);
    var next := path[..i + 1];
    assert Upto(next, path);
    if next in t && t[path[..i]].Dir? {
    } else if t[path[..i]].Dir? {
      assert Private(t, path, tail) <==> tail && Private(t, path, true);
    }
  }

  lemma WholePath(t: Tree, path: Path, lastPublic: bool, tail: bool)
    requires Checked(t, path, |path|, lastPublic)
    ensures Private(t, path, tail)
  {
    assert path[..|path|] == path;
  }

  /** `ensurePrivatePath`: the carried flag says whether the last directory
      was open to others, which only matters at a missing tail. */
  method EnsurePrivatePath(disk: D.Disk, path: Path, allowMissingTail: bool) returns (ok: bool)
    requires disk.Valid() && Plain(path)
    ensures ok ==> Private(disk.tree, path, allowMissingTail)
    ensures disk.healthy && Private(disk.tree, path, allowMissingTail) ==> ok
    ensures ok ==> Unlinked(disk.tree, path) && !SomeExposed(disk.tree, path)
    ensures ok && path !in disk.tree ==> allowMissingTail && !TailExposed(disk.tree, path)
    ensures disk.healthy && !ok && Unlinked(disk.tree, path) && !SomeExposed(disk.tree, path) ==>
              path !in disk.tree && (!allowMissingTail || TailExposed(disk.tree, path))
  {
    PrivateIff(disk.tree, path, allowMissingTail);
    var lastPublicWritableDir := false;
    var i := 0;
    assert Walked(disk.tree, path, 0) && SecureWay(disk.tree, path, 0);
    while i < |path|
      invariant i <= |path| && Checked(disk.tree, path, i, lastPublicWritableDir)
    {
      PrivateStep(disk.tree, path, i, lastPublicWritableDir, allowMissingTail);
      PlainPrefix(path, i + 1);
      var info := disk.Lstat(path[..i + 1]);
      match info {
        case Fault(errno) =>
          return allowMissingTail && errno.Noent? && !lastPublicWritableDir;
        case Found(node) =>
          if node.Link? { return false; }
          if node.File? {
            lastPublicWritableDir := false;
          } else {
            lastPublicWritableDir := PublicWritable(node);
            if PublicWritable(node) && !node.sticky { return false; }
            if OwnerWritable(node) && !node.trusted { return false; }
          }
      }
      i := i + 1;
    }
    WholePath(disk.tree, path, lastPublicWritableDir, allowMissingTail);
    return true;
  }
}
