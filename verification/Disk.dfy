/** The system calls the copier makes, over a mutable tree.  On a disk that is
    not `healthy` any call may also fail with an I/O error or a full disk, and
    a call of several steps may stop half way.  `seen` records every state the
    tree was in, which is every state a crash can leave. */
module Disk {
  import opened Tree
  import opened PathGuard
  import opened Mirror

  datatype Errno = Ok | Noent | Notdir | Loop | Exist | Isdir | Notempty | Io | Nospc

  datatype Stat = Found(node: Node) | Fault(errno: Errno)

  function StatAt(t: Tree, spot: Spot): Stat {
    match spot
    case At(q) => if q in t then Found(t[q]) else Fault(Noent)
    case NoEntry => Fault(Noent)
    case NotDirectory => Fault(Notdir)
    case TooManyLinks => Fault(Loop)
  }

  /** `Lstat` where no link lies above the path. */
  ghost function LiteralStat(t: Tree, path: Path): Stat {
    StatAt(t, LiteralSpot(t, path))
  }

  function Subtree(t: Tree, p: Path): set<Path> {
    set q | q in t && Upto(p, q)
  }

  /** Some of the nodes at and below `p` are gone, nothing else changed. */
  ghost predicate PartlyRemoved(t: Tree, u: Tree, p: Path) {
    && WellFormed(u)
    && forall q :: Look(u, q) == Look(t, q) || (Upto(p, q) && q !in u)
  }

  /** Some of the missing directories down to `p` exist, nothing else changed. */
  ghost predicate PartlyMade(t: Tree, u: Tree, p: Path, perm: Perm) {
    && WellFormed(u)
    && forall q :: Look(u, q) == Look(t, q) || (q !in t && Upto(q, p) && Look(u, q) == Some(Dir(perm, false, true)))
  }

  class Disk {
    var tree: Tree
    ghost var seen: seq<Tree>
    /** How often removing a file failed, the disk was full, and the caller gave
        up during a copy. */
    ghost var stuck: nat
    ghost var full: nat
    ghost var cancels: nat
    const healthy: bool

    ghost predicate Valid()
      reads this`tree
    {
      WellFormed(tree)
    }

    constructor (tree: Tree, healthy: bool)
      requires WellFormed(tree)
      ensures Valid() && this.tree == tree && this.healthy == healthy && seen == [tree]
    {
      this.tree := tree;
      this.healthy := healthy;
      seen := [tree];
      stuck, full, cancels := 0, 0, 0;
    }

    /** Whether the environment makes the next call fail. */
    method Interrupted() returns (failed: bool)
      ensures healthy ==> !failed
    {
      failed := *;
      failed := failed && !healthy;
    }

    /** Whether the caller has given up. */
    method Cancelled() returns (cancelled: bool)
      modifies this`cancels
      ensures cancels == old(cancels) + if cancelled then 1 else 0
      ensures healthy ==> !cancelled
    {
      cancelled := Interrupted();
      if cancelled { cancels := cancels + 1; }
    }

    method Install(u: Tree)
      modifies this`tree, this`seen
      ensures tree == u && seen == old(seen) + [u]
    {
      tree := u;
      seen := seen + [u];
    }

    method Lstat(path: Path) returns (r: Stat)
      ensures r == StatAt(tree, Resolve(tree, path, false)) || (!healthy && r == Fault(Io))
      ensures Valid() && Plain(path) && NoLinkAbove(tree, path) ==>
                r == LiteralStat(tree, path) || (!healthy && r == Fault(Io))
    {
      var failed := Interrupted();
      r := if failed then Fault(Io) else StatAt(tree, Resolve(tree, path, false));
      if Valid() && Plain(path) && NoLinkAbove(tree, path) { ResolveIsLiteral(tree, path, false); }
    }

    /** Follows a final link. */
    method Stat(path: Path) returns (r: Stat)
      ensures r == StatAt(tree, Resolve(tree, path, true)) || (!healthy && r == Fault(Io))
    {
      var failed := Interrupted();
      r := if failed then Fault(Io) else StatAt(tree, Resolve(tree, path, true));
    }

    method RemoveLeaf(ghost start: Tree, path: Path, rest: set<Path>)
      requires Valid() && path != [] && rest != {} && rest == Subtree(tree, path)
      requires PartlyRemoved(start, tree, path)
      modifies this`tree, this`seen
      ensures Valid() && seen == old(seen) + [tree] && PartlyRemoved(start, tree, path)
      ensures Subtree(tree, path) < rest
    {
      DeepestExists(rest);
      var leaf: Path :| leaf in rest && forall q | q in rest :: |q| <= |leaf|;
      LeafRemoved(start, tree, rest, path, leaf);
      Install(map q | q in tree && q != leaf :: tree[q]);
      assert leaf !in Subtree(tree, path);
    }

    method Readlink(path: Path) returns (e: Errno, text: string)
      requires Valid() && Plain(path) && NoLinkAbove(tree, path) && !FileAbove(tree, path)
      requires path in tree && tree[path].Link?
      ensures e.Ok? ==> tree[path] == Link(text)
      ensures healthy ==> e.Ok?
    {
      var failed := Interrupted();
      if failed { return Io, ""; }
      ResolveIsLiteral(tree, path, false);
      assert path != [];
      AncestorsAreDirs(tree, path, Parent(path)) by { PrefixOfParent(path, Parent(path)); }
      var spot := Resolve(tree, path, false);
      return Ok, tree[spot.path].text;
    }

    /** Removes a leaf at a time; a missing path is no error. */
    method RemoveAll(path: Path) returns (e: Errno)
      requires Valid() && Plain(path) && path != [] && NoLinkAbove(tree, path) && !FileAbove(tree, path)
      modifies this`tree, this`seen
      ensures Valid() && old(seen) <= seen && PartlyRemoved(old(tree), tree, path)
      ensures RemovedSince(old(tree), seen, |old(seen)|, path)
      ensures e.Ok? ==> tree == RemoveTree(old(tree), path)
      ensures healthy ==> e.Ok?
    {
      ghost var start := tree;
      ResolveIsLiteral(tree, path, false);
      var spot := Resolve(tree, path, false);
      if spot.NoEntry? || (spot.At? && spot.path !in tree) {
        MissingSubtree(tree, path);
        return Ok;
      }
      var rest: set<Path> := Subtree(tree, path);
      while rest != {}
        invariant Valid() && old(seen) <= seen
        invariant rest == Subtree(tree, path)
        invariant PartlyRemoved(start, tree, path)
        invariant RemovedSince(start, seen, |old(seen)|, path)
        decreases rest
      {
        var failed := Interrupted();
        if failed { return Io; }
        RemoveLeaf(start, path, rest);
        rest := Subtree(tree, path);
      }
      NothingLeft(start, tree, path);
      return Ok;
    }

    /** Creates the missing directories one by one, outermost first. */
    method MkdirAll(path: Path, perm: Perm) returns (e: Errno)
      requires Valid() && Plain(path) && Unlinked(tree, path)
      modifies this`tree, this`seen
      ensures Valid() && old(seen) <= seen && PartlyMade(old(tree), tree, path, perm)
      ensures MadeSince(old(tree), seen, |old(seen)|, path, perm)
      ensures e.Ok? ==> tree == MakeDirs(old(tree), path, perm) && (path in old(tree) ==> old(tree)[path].Dir?)
      ensures healthy && (path in old(tree) ==> old(tree)[path].Dir?) ==> e.Ok?
    {
      ghost var start := tree;
      var i := 0;
      while i < |path|
        invariant 0 <= i <= |path| && Valid() && old(seen) <= seen
        invariant tree == MakeDirs(start, path[..i], perm)
        invariant path[..i] in tree && tree[path[..i]].Dir?
        invariant PartlyMade(start, tree, path, perm)
        invariant MadeSince(start, seen, |old(seen)|, path, perm)
      {
        e := MkdirOne(start, path, i, perm, |old(seen)|);
        if !e.Ok? { return e; }
        i := i + 1;
      }
      assert path[..|path|] == path;
      return Ok;
    }

    /** Makes one more component, or finds it a directory. */
    method MkdirOne(ghost start: Tree, path: Path, i: nat, perm: Perm, ghost n: nat) returns (e: Errno)
      requires Valid() && Plain(path) && WellFormed(start) && Unlinked(start, path) && i < |path| && n <= |seen|
      requires tree == MakeDirs(start, path[..i], perm) && path[..i] in tree && tree[path[..i]].Dir?
      requires PartlyMade(start, tree, path, perm) && MadeSince(start, seen, n, path, perm)
      modifies this`tree, this`seen
      ensures Valid() && old(seen) <= seen
      ensures PartlyMade(start, tree, path, perm) && MadeSince(start, seen, n, path, perm)
      ensures e.Ok? ==> tree == MakeDirs(start, path[..i + 1], perm)
      ensures e.Ok? ==> path[..i + 1] in tree && tree[path[..i + 1]].Dir?
      ensures e.Ok? && path in start && i + 1 == |path| ==> start[path].Dir?
      ensures healthy && (path in start ==> start[path].Dir?) ==> e.Ok?
    {
      var failed := Interrupted();
      if failed { return Io; }
      MkdirStep(start, tree, path, i, perm);
      var cur := path[..i + 1];
      match Resolve(tree, cur, true) {
        case At(q) =>
          if q !in tree {
            Install(tree[q := Dir(perm, false, true)]);
          } else if !tree[q].Dir? {
            return Notdir;
          }
        case _ => return Notdir;
      }
      return Ok;
    }

    /** Follows a final link, as chmod does. */
    method Chmod(path: Path, perm: Perm) returns (e: Errno)
      requires Valid() && Plain(path) && Unlinked(tree, path)
      modifies this`tree, this`seen
      ensures Valid()
      ensures e.Ok? ==> path in old(tree) && tree == old(tree)[path := WithPerm(old(tree)[path], perm)]
      ensures e.Ok? ==> seen == old(seen) + [tree]
      ensures !e.Ok? ==> tree == old(tree) && seen == old(seen)
      ensures healthy && path in old(tree) ==> e.Ok?
    {
      var failed := Interrupted();
      if failed { return Io; }
      GuardedResolution(tree, path, path, true);
      match Resolve(tree, path, true) {
        case At(q) =>
          if q !in tree { return Noent; }
          Install(tree[q := WithPerm(tree[q], perm)]);
          return Ok;
        case _ => return Noent;
      }
    }

    method Chtimes(path: Path, mtime: int) returns (e: Errno)
      requires Valid() && Plain(path) && Unlinked(tree, path) && path in tree && tree[path].File?
      modifies this`tree, this`seen
      ensures Valid()
      ensures e.Ok? ==> tree == old(tree)[path := old(tree)[path].(mtime := mtime)] && seen == old(seen) + [tree]
      ensures !e.Ok? ==> tree == old(tree) && seen == old(seen)
      ensures healthy ==> e.Ok?
    {
      var failed := Interrupted();
      if failed { return Io; }
      GuardedResolution(tree, path, path, true);
      var spot := Resolve(tree, path, true);
      assert path != [];
      AncestorsAreDirs(tree, path, Parent(path)) by { PrefixOfParent(path, Parent(path)); }
      Install(tree[spot.path := tree[spot.path].(mtime := mtime)]);
      return Ok;
    }

    method MakeSymlink(text: string, path: Path) returns (e: Errno)
      requires Valid() && Plain(path) && path != [] && Unlinked(tree, Parent(path))
      requires Parent(path) in tree && tree[Parent(path)].Dir?
      modifies this`tree, this`seen
      ensures Valid()
      ensures e.Ok? ==> path !in old(tree) && tree == old(tree)[path := Link(text)] && seen == old(seen) + [tree]
      ensures !e.Ok? ==> tree == old(tree) && seen == old(seen)
      ensures healthy && path !in old(tree) ==> e.Ok?
    {
      var failed := Interrupted();
      if failed { return Io; }
      LeafSpot(tree, path);
      var spot := Resolve(tree, path, false);
      if spot.path in tree { return Exist; }
      LeafAdded(tree, path, Link(text));
      Install(tree[spot.path := Link(text)]);
      return Ok;
    }

    /** A call that needs room may fail for want of it. */
    method SpaceFor() returns (e: Errno)
      modifies this`full
      ensures e.Ok? || e.Io? || e.Nospc?
      ensures full == old(full) + if e.Nospc? then 1 else 0
      ensures healthy ==> e.Ok?
    {
      var failed := Interrupted();
      var none: bool := *;
      e := if !failed then Ok else if none then Nospc else Io;
      if e.Nospc? { full := full + 1; }
    }

    /** A fresh file in `dir`; its random name is not `avoid`. */
    method CreateTemp(dir: Path, avoid: Path) returns (e: Errno, tmp: Path)
      requires Valid() && Plain(dir) && Unlinked(tree, dir) && dir in tree && tree[dir].Dir?
      modifies this`tree, this`seen, this`full
      ensures full == old(full) + if e.Nospc? then 1 else 0
      ensures Valid()
      ensures e.Ok? ==>
                && tmp !in old(tree) && IsTemp(tmp) && Parent(tmp) == dir && Plain(tmp) && tmp != avoid
                && tmp in tree && tree[tmp].File? && tree[tmp].data == []
                && tree == old(tree)[tmp := tree[tmp]] && seen == old(seen) + [tree]
      ensures !e.Ok? ==> tree == old(tree) && seen == old(seen)
      ensures healthy ==> e.Ok?
    {
      e := SpaceFor();
      if !e.Ok? { return e, []; }
      GuardedResolution(tree, dir, dir, true);
      var now: int := *;
      FreshTemp(tree, dir, avoid);
      tmp :| tmp !in tree && IsTemp(tmp) && Parent(tmp) == dir && Plain(tmp) && tmp != avoid && tmp != [];
      LeafAdded(tree, tmp, File([], 0x180, now));
      Install(tree[tmp := File([], 0x180, now)]);
      return Ok, tmp;
    }

    /** Writes through an open descriptor, in pieces of any size. */
    method CopyBytes(data: Bytes, tmp: Path) returns (e: Errno)
      requires Valid() && tmp in tree && tree[tmp].File? && tree[tmp].data == []
      modifies this`tree, this`seen, this`full
      ensures full == old(full) + if e.Nospc? then 1 else 0
      ensures Valid() && old(seen) <= seen && ScratchOnly(old(tree), tree, tmp)
      ensures forall i | |old(seen)| <= i < |seen| :: ScratchOnly(old(tree), seen[i], tmp)
      ensures e.Ok? ==> tree[tmp].data == data
      ensures healthy ==> e.Ok?
    {
      var done := 0;
      while done < |data|
        invariant 0 <= done <= |data| && Valid() && old(seen) <= seen && full == old(full)
        invariant ScratchOnly(old(tree), tree, tmp) && tree[tmp].data == data[..done]
        invariant forall i | |old(seen)| <= i < |seen| :: ScratchOnly(old(tree), seen[i], tmp)
      {
        e := SpaceFor();
        if !e.Ok? { return e; }
        var next: int :| done < next <= |data|;
        var now: int := *;
        assert tmp != [];
        Install(tree[tmp := File(data[..next], tree[tmp].perm, now)]);
        done := next;
      }
      return Ok;
    }

    /** Replaces a file or nothing at `path`, never a directory. */
    method Rename(tmp: Path, path: Path) returns (e: Errno)
      requires Valid() && Plain(tmp) && Plain(path) && path != [] && tmp != [] && tmp != path
      requires Unlinked(tree, Parent(path)) && Parent(path) in tree && tree[Parent(path)].Dir?
      requires Parent(tmp) == Parent(path) && tmp in tree && tree[tmp].File?
      modifies this`tree, this`seen
      ensures Valid()
      ensures e.Ok? ==>
                && !(path in old(tree) && old(tree)[path].Dir?)
                && tree == (old(tree) - {tmp})[path := old(tree)[tmp]] && seen == old(seen) + [tree]
      ensures !e.Ok? ==> tree == old(tree) && seen == old(seen)
      ensures healthy && !(path in old(tree) && old(tree)[path].Dir?) ==> e.Ok?
    {
      var failed := Interrupted();
      if failed { return Io; }
      LeafSpot(tree, path);
      LeafSpot(tree, tmp);
      var target := Resolve(tree, path, false);
      var spot := Resolve(tree, tmp, false);
      if target.path in tree && tree[target.path].Dir? { return Isdir; }
      FilesMoved(tree, tmp, path);
      Install((tree - {spot.path})[target.path := tree[spot.path]]);
      return Ok;
    }

    /** Unlinks a file. */
    method Remove(path: Path) returns (e: Errno)
      requires Valid() && Plain(path) && path != [] && Unlinked(tree, Parent(path))
      requires Parent(path) in tree && tree[Parent(path)].Dir? && path in tree && tree[path].File?
      modifies this`tree, this`seen, this`stuck
      ensures stuck == old(stuck) + if e.Ok? then 0 else 1
      ensures Valid()
      ensures e.Ok? ==> tree == old(tree) - {path} && seen == old(seen) + [tree]
      ensures !e.Ok? ==> tree == old(tree) && seen == old(seen)
      ensures healthy ==> e.Ok?
    {
      var failed := Interrupted();
      if failed {
        stuck := stuck + 1;
        return Io;
      }
      LeafSpot(tree, path);
      var spot := Resolve(tree, path, false);
      assert forall q | q in tree && q != [] :: Parent(q) != path;
      Install(tree - {spot.path});
      return Ok;
    }
  }

  /** Only the scratch file differs. */
  ghost predicate ScratchOnly(t: Tree, u: Tree, tmp: Path) {
    && WellFormed(u)
    && tmp in u && u[tmp].File?
    && forall q | q != tmp :: Look(u, q) == Look(t, q)
  }

  lemma FilesMoved(t: Tree, tmp: Path, path: Path)
    requires WellFormed(t) && path != [] && tmp != [] && tmp != path && tmp in t && t[tmp].File?
    requires Parent(path) in t && t[Parent(path)].Dir? && !(path in t && t[path].Dir?)
    ensures WellFormed((t - {tmp})[path := t[tmp]])
  {
  }

  ghost predicate RemovedSince(t: Tree, seen: seq<Tree>, n: nat, p: Path) {
    forall i | n <= i < |seen| :: PartlyRemoved(t, seen[i], p)
  }

  lemma NothingLeft(t: Tree, u: Tree, p: Path)
    requires PartlyRemoved(t, u, p) && Subtree(u, p) == {}
    ensures u == RemoveTree(t, p)
  {
    forall q ensures Look(u, q) == Look(RemoveTree(t, p), q) {
      assert Look(u, q) == Look(t, q) || (Upto(p, q) && q !in u);
      assert q !in Subtree(u, p);
      assert p <= q <==> Upto(p, q);
    }
    SameLookSameTree(u, RemoveTree(t, p));
  }

  lemma NoLinkAboveParent(t: Tree, path: Path)
    requires Unlinked(t, Parent(path)) && path != []
    ensures NoLinkAbove(t, path)
  {
    forall q | q in t && Above(q, path) ensures !t[q].Link? {
      PrefixOfParent(path, q);
      if q != Parent(path) { PrefixOfParent(Parent(path), q); assert Above(q, Parent(path)); }
    }
  }

  lemma MissingSubtree(t: Tree, p: Path)
    requires WellFormed(t) && p !in t
    ensures RemoveTree(t, p) == t
  {
    forall q | q in t ensures !(p <= q) {
      if p <= q { assert q == p || Above(p, q); AncestorsAreDirs(t, q, p); }
    }
  }

  lemma {:induction false} DeepestExists(s: set<Path>)
    requires s != {}
    ensures exists d :: d in s && forall q | q in s :: |q| <= |d|
    decreases |s|
  {
    var x :| x in s;
    var rest := s - {x};
    if rest == {} {
      assert s == {x};
    } else {
      DeepestExists(rest);
      var d :| d in rest && forall q | q in rest :: |q| <= |d|;
      var top := if |d| < |x| then x else d;
      assert top in s && forall q | q in s :: q == x || q in rest;
    }
  }

  lemma LeafRemoved(start: Tree, t: Tree, rest: set<Path>, p: Path, leaf: Path)
    requires WellFormed(t) && p != [] && rest == Subtree(t, p)
    requires PartlyRemoved(start, t, p)
    requires leaf in rest && forall q | q in rest :: |q| <= |leaf|
    ensures PartlyRemoved(start, map q | q in t && q != leaf :: t[q], p)
  {
  }

  ghost predicate MadeSince(t: Tree, seen: seq<Tree>, n: nat, p: Path, perm: Perm) {
    forall i | n <= i < |seen| :: PartlyMade(t, seen[i], p, perm)
  }

  lemma MkdirStep(start: Tree, t: Tree, path: Path, i: nat, perm: Perm)
    requires WellFormed(start) && Plain(path) && Unlinked(start, path) && i < |path|
    requires t == MakeDirs(start, path[..i], perm) && WellFormed(t) && path[..i] in t && t[path[..i]].Dir?
    ensures var cur := path[..i + 1];
            && Resolve(t, cur, true) == At(cur)
            && (cur !in t ==>
                  && MakeDirs(start, cur, perm) == t[cur := Dir(perm, false, true)]
                  && PartlyMade(start, MakeDirs(start, cur, perm), path, perm))
            && (cur in t ==> cur in start && start[cur] == t[cur] && MakeDirs(start, cur, perm) == t)
            && (cur in t && i + 1 < |path| ==> t[cur].Dir?)
            && (i + 1 == |path| ==> cur == path)
  {
    var cur := path[..i + 1];
    assert Upto(cur, path) && Parent(cur) == path[..i];
    forall q ensures Upto(q, path[..i]) <==> Above(q, cur) { PrefixOfParent(cur, q); }
    MakeDirsLook(start, path[..i], perm);
    assert Look(t, cur) == Look(start, cur);
    if i + 1 < |path| { assert Above(cur, path); } else { assert cur == path; }
    forall q | q in t && Above(q, cur) ensures t[q].Dir? {
      assert Look(t, q) == Look(start, q) || t[q].Dir?;
      assert Above(q, path);
    }
    assert Unlinked(t, cur);
    GuardedResolution(t, cur, cur, true);
    if cur in t {
      forall q | Above(q, cur) ensures q in start { AncestorsAreDirs(start, cur, q); }
      assert Above(path[..i], cur);
      SameLookSameTree(t, start);
    } else {
      forall q | q in start && Upto(q, cur) ensures start[q].Dir? { if q != cur { assert Above(q, path); } }
      MakeDirsWellFormed(start, cur, perm);
      MakeDirsLook(start, cur, perm);
      forall q | Upto(q, cur) ensures Upto(q, path) {}
    }
  }

  lemma LeafSpot(t: Tree, path: Path)
    requires WellFormed(t) && Plain(path) && path != [] && Unlinked(t, Parent(path))
    requires Parent(path) in t && t[Parent(path)].Dir?
    ensures Resolve(t, path, false) == At(path)
  {
    NoLinkAboveParent(t, path);
    ResolveIsLiteral(t, path, false);
    forall q | q in t && Above(q, path) ensures t[q].Dir? {
      PrefixOfParent(path, q);
      if q != Parent(path) { AncestorsAreDirs(t, Parent(path), q); }
    }
  }

  /** A name long enough is free: the tree is finite. */
  lemma FreshTemp(t: Tree, dir: Path, avoid: Path)
    requires Plain(dir)
    ensures exists tmp :: tmp !in t && IsTemp(tmp) && Parent(tmp) == dir && Plain(tmp) && tmp != avoid && tmp != []
  {
    var n := LongName(t.Keys + {avoid});
    var name := ".tmp-" + seq(n, _ => 'x');
    var tmp := dir + [name];
    assert |tmp[|tmp| - 1]| > n;
    assert Parent(tmp) == dir && name != "." && name != "..";
    assert forall q | q in t.Keys + {avoid} && q != [] :: |q[|q| - 1]| <= n;
    assert tmp !in t.Keys + {avoid};
  }

  ghost function LongName(s: set<Path>): (n: nat)
    ensures forall q | q in s && q != [] :: |q[|q| - 1]| <= n
  {
    if s == {} then 0
    else
      var q :| q in s;
      var m := LongName(s - {q});
      var k := if q == [] then 0 else |q[|q| - 1]|;
      assert forall p | p in s :: p == q || p in s - {q};
      if k > m then k else m
  }
}
