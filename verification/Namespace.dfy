/** The file name space of a process: a tree, and the mounts that cover parts
    of it. */
module Namespace {
  import opened Tree

  /** Where a mount comes from: a device by its name, or a directory that is
      bound to one more place. */
  datatype Origin = Device(name: string) | Directory(path: Path)

  /** What is mounted, and what it holds at that moment. */
  datatype Volume = Volume(origin: Origin, tree: Tree)

  /** A mount hides what was at and below its point. */
  datatype Mounted = Mounted(point: Path, origin: Origin, hidden: Tree)

  /** The tree as it is visible, and the mount table in mounting order. */
  datatype Image = Image(tree: Tree, mounts: seq<Mounted>)

  /** The part of a tree at and below `q`. */
  function Under(t: Tree, q: Path): Tree {
    map x | x in t && Upto(q, x) :: t[x]
  }

  /** `content` in place of whatever is at and below `q`. */
  function Graft(t: Tree, q: Path, content: Tree): Tree {
    var below := set r | r in content :: q + r;
    map x | x in t.Keys + below && (if Upto(q, x) then x[|q|..] in content else x in t) ::
      if Upto(q, x) then content[x[|q|..]] else t[x]
  }

  function Cover(i: Image, q: Path, content: Volume): Image {
    Image(Graft(i.tree, q, content.tree), i.mounts + [Mounted(q, content.origin, Under(i.tree, q))])
  }

  /** The tree as it is seen from `q` down. */
  function Seen(t: Tree, q: Path): Tree {
    var below := set x | x in t && Upto(q, x) :: x[|q|..];
    map r | r in below && q + r in t :: t[q + r]
  }

  lemma SeenLook(t: Tree, q: Path, r: Path)
    ensures Look(Seen(t, q), r) == Look(t, q + r)
  {
    if q + r in t {
      assert Upto(q, q + r) && (q + r)[|q|..] == r;
    }
  }

  /** The mounts that do not lie at or below `q`. */
  function Outside(mounts: seq<Mounted>, q: Path): seq<Mounted> {
    if mounts == [] then []
    else
      var m := mounts[|mounts| - 1];
      Outside(mounts[..|mounts| - 1], q) + if Upto(q, m.point) then [] else [m]
  }

  predicate IsPoint(mounts: seq<Mounted>, q: Path) {
    exists m :: m in mounts && m.point == q
  }

  /** The index of the last mount at `q`. */
  function LastAt(mounts: seq<Mounted>, q: Path): (k: nat)
    requires IsPoint(mounts, q)
    ensures k < |mounts| && mounts[k].point == q && forall j | k < j < |mounts| :: mounts[j].point != q
  {
    if mounts[|mounts| - 1].point == q then |mounts| - 1 else LastAt(mounts[..|mounts| - 1], q)
  }

  /** The last mount at `q` goes, with everything mounted below it since, and
      what it covered comes to light. */
  function Detached(i: Image, q: Path): Image {
    if !IsPoint(i.mounts, q) then i
    else
      var k := LastAt(i.mounts, q);
      Image(RemoveTree(i.tree, q) + i.mounts[k].hidden, i.mounts[..k] + Outside(i.mounts[k + 1..], q))
  }

  // ---- Facts about covering and uncovering ----

  lemma GraftLook(t: Tree, q: Path, content: Tree, x: Path)
    ensures Look(Graft(t, q, content), x) == if Upto(q, x) then Look(content, x[|q|..]) else Look(t, x)
  {
    if Upto(q, x) {
      assert q + x[|q|..] == x;
    }
  }

  lemma GraftWellFormed(t: Tree, q: Path, content: Tree)
    requires WellFormed(t) && WellFormed(content) && q in t && q != []
    ensures WellFormed(Graft(t, q, content))
  {
    var u := Graft(t, q, content);
    forall x ensures Look(u, x) == if Upto(q, x) then Look(content, x[|q|..]) else Look(t, x) {
      GraftLook(t, q, content, x);
    }
    assert Look(u, []) == Look(t, []);
    forall x | x in u && x != [] ensures Parent(x) in u && u[Parent(x)].Dir? {
      assert Look(u, x).Some?;
      if x == q {
        assert !Upto(q, Parent(q));
        assert Look(u, Parent(q)) == Look(t, Parent(q));
      } else if Upto(q, x) {
        PrefixOfParent(x, q);
        var r := x[|q|..];
        assert r in content && r != [] && Parent(x)[|q|..] == Parent(r);
        assert Look(u, Parent(x)) == Look(content, Parent(r));
      } else {
        PrefixOfParent(x, q);
        assert Look(u, Parent(x)) == Look(t, Parent(x));
      }
    }
  }

  /** Right after mounting, the content is what is seen at the mount point. */
  lemma CoverShows(i: Image, q: Path, content: Volume)
    ensures Seen(Cover(i, q, content).tree, q) == content.tree
  {
    var u := Cover(i, q, content).tree;
    forall r ensures Look(Seen(u, q), r) == Look(content.tree, r) {
      SeenLook(u, q, r);
      GraftLook(i.tree, q, content.tree, q + r);
      assert (q + r)[|q|..] == r;
    }
    SameLookSameTree(Seen(u, q), content.tree);
  }

  /** Taking a new mount off again gives back what was there. */
  lemma DetachUndoesCover(i: Image, q: Path, content: Volume)
    ensures Detached(Cover(i, q, content), q) == i
  {
    var j := Cover(i, q, content);
    assert j.mounts[|i.mounts|].point == q;
    assert IsPoint(j.mounts, q);
    var k := LastAt(j.mounts, q);
    assert k == |i.mounts|;
    assert j.mounts[..k] == i.mounts && j.mounts[k + 1..] == [];
    forall x ensures Look(RemoveTree(j.tree, q) + Under(i.tree, q), x) == Look(i.tree, x) {
      GraftLook(i.tree, q, content.tree, x);
    }
    SameLookSameTree(RemoveTree(j.tree, q) + Under(i.tree, q), i.tree);
    assert i.mounts + [] == i.mounts;
  }

  // ---- Resolution in a tree that grows ----

  /** Below an existing node, a path resolves like the rest of it from there. */
  lemma {:induction false} WalkOn(t: Tree, cur: Path, rest: Path, more: Path, follow: bool, budget: nat, r: Path)
      returns (left: nat)
    requires Walk(t, cur, rest, true, budget) == At(r) && r in t && more != []
    ensures Walk(t, cur, rest + more, follow, budget) == Walk(t, r, more, follow, left)
    decreases budget, |rest|
  {
    if rest == [] {
      assert rest + more == more;
      left := budget;
    } else {
      var all := rest + more;
      assert all[0] == rest[0] && all[1..] == rest[1..] + more;
      if rest[0] == "." {
        left := WalkOn(t, cur, rest[1..], more, follow, budget, r);
      } else if rest[0] == ".." {
        left := WalkOn(t, Parent(cur), rest[1..], more, follow, budget, r);
      } else {
        var next := cur + [rest[0]];
        if t[next].Link? {
          var path := Components(t[next].text) + rest[1..];
          assert path + more == Components(t[next].text) + all[1..];
          left := WalkOn(t, LinkBase(cur, t[next].text), path, more, follow, budget - 1, r);
        } else {
          left := WalkOn(t, next, rest[1..], more, follow, budget, r);
        }
      }
    }
  }

  /** Every node of `t` is in `u`, the same. */
  predicate Within(t: Tree, u: Tree) {
    forall x | x in t :: x in u && u[x] == t[x]
  }

  /** What resolves to a node still does when other nodes are added. */
  lemma {:induction false} WalkKeeps(t: Tree, u: Tree, cur: Path, rest: Path, follow: bool, budget: nat, r: Path)
    requires Walk(t, cur, rest, follow, budget) == At(r) && r in t && Within(t, u)
    ensures Walk(u, cur, rest, follow, budget) == At(r)
    decreases budget, |rest|
  {
    if rest != [] {
      var next := cur + [rest[0]];
      if rest[0] == "." {
        WalkKeeps(t, u, cur, rest[1..], follow, budget, r);
      } else if rest[0] == ".." {
        WalkKeeps(t, u, Parent(cur), rest[1..], follow, budget, r);
      } else if t[next].Link? && (|rest| > 1 || follow) {
        WalkKeeps(t, u, LinkBase(cur, t[next].text), Components(t[next].text) + rest[1..], follow, budget - 1, r);
      } else {
        WalkKeeps(t, u, next, rest[1..], follow, budget, r);
      }
    }
  }

  /** A path whose front resolves to the directory `r`, and whose tail is plain
      and meets no link, resolves to the literal tail below `r`. */
  lemma ResolvesBelow(t: Tree, front: Path, tail: Path, follow: bool, r: Path)
    requires WellFormed(t) && Resolve(t, front, true) == At(r) && r in t && t[r].Dir?
    requires Plain(tail) && tail != [] && NoLinkAbove(t, r + tail)
    requires follow && r + tail in t ==> !t[r + tail].Link?
    ensures Resolve(t, front + tail, follow) == LiteralSpot(t, r + tail)
  {
    var left := WalkOn(t, [], front, tail, follow, MAX_LINKS, r);
    WalkIsLiteral(t, r, tail, follow, left);
  }
}
