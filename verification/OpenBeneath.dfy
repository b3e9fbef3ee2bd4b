/** Opening a directory below a root one component at a time, each through
    the descriptor of the one before. */
module OpenBeneath {
  import opened Lexical
  import opened Tree

  // ---- Descriptors ----

  datatype Error = NotFound | Exists | Other

  datatype Result = Opened(fd: nat) | Failed(error: Error)

  const PRIVATE: Perm := 0x1C0

  /** An empty subpath stands for the root itself. */
  function Subpath(text: string): string {
    if text == "" then "." else text
  }

  /** Opening succeeds here if nothing fails by itself: directories all the
      way, or, when creating, a missing tail. */
  ghost predicate Openable(t: Tree, root: Path, names: Path, create: bool) {
    && root in t && t[root].Dir?
    && forall i | 1 <= i <= |names| ::
         if root + names[..i] in t then t[root + names[..i]].Dir? else create
  }

  /** Some leading part of the walk has been made. */
  ghost predicate PartlyMade(t: Tree, u: Tree, root: Path, names: Path) {
    exists n | 0 <= n <= |names| :: u == MakeDirs(t, root + names[..n], PRIVATE)
  }

  class Process {
    /** No call fails except for the state of the tree. */
    const healthy: bool
    var tree: Tree
    /** The directory each open descriptor denotes. */
    var open: map<nat, Path>

    constructor (healthy: bool, tree: Tree, open: map<nat, Path>)
      ensures this.healthy == healthy && this.tree == tree && this.open == open
    {
      this.healthy, this.tree, this.open := healthy, tree, open;
    }

    /** A descriptor for the directory at `p`, under a number not in use. */
    method Allocate(p: Path) returns (fd: nat)
      modifies this`open
      ensures fd !in old(open) && open == old(open)[fd := p]
    {
      fd := 0;
      var rest := open.Keys;
      while fd in rest
        invariant rest <= open.Keys && forall f | f in open && f !in rest :: f < fd
        decreases rest
      {
        rest := rest - {fd};
        fd := fd + 1;
      }
      if fd in open {
        assert false;
      }
      open := open[fd := p];
    }

    method Close(fd: nat)
      requires fd in open
      modifies this`open
      ensures open == old(open) - {fd}
    {
      open := open - {fd};
    }

    method OpenRoot(root: Path) returns (r: Result)
      modifies this`open
      ensures r.Failed? ==> open == old(open)
      ensures r.Opened? ==> root in tree && tree[root].Dir? && r.fd !in old(open) && open == old(open)[r.fd := root]
      ensures healthy && root in tree && tree[root].Dir? ==> r.Opened?
    {
      var ok: bool := *;
      if root !in tree {
        return Failed(NotFound);
      }
      if !tree[root].Dir? || (!healthy && !ok) {
        return Failed(Other);
      }
      var fd := Allocate(root);
      return Opened(fd);
    }

    /** Opens the child literally: a link or a file is an error. */
    method OpenDirAtNoSymlink(dirfd: nat, name: Name) returns (r: Result)
      requires dirfd in open
      modifies this`open
      ensures var p := old(open)[dirfd] + [name];
        && (r.Failed? ==> open == old(open) && (p !in tree <==> r.error == NotFound))
        && (r.Opened? ==> p in tree && tree[p].Dir? && r.fd !in old(open) && open == old(open)[r.fd := p])
        && (healthy && p in tree && tree[p].Dir? ==> r.Opened?)
    {
      var ok: bool := *;
      var p := open[dirfd] + [name];
      if p !in tree {
        return Failed(NotFound);
      }
      if !tree[p].Dir? || (!healthy && !ok) {
        return Failed(Other);
      }
      var fd := Allocate(p);
      return Opened(fd);
    }

    method MkdirAt(dirfd: nat, name: Name) returns (r: Result)
      requires dirfd in open && name != ""
      modifies this`tree
      ensures var p := open[dirfd] + [name];
        && (r.Opened? ==> p !in old(tree) && tree == old(tree)[p := Dir(PRIVATE, false, true)])
        && (r.Failed? ==> tree == old(tree) && (r.error == Exists ==> p in tree))
        && (healthy && p !in old(tree) ==> r.Opened?)
    {
      var ok: bool := *;
      var p := open[dirfd] + [name];
      if p in tree {
        return Failed(Exists);
      }
      if !healthy && !ok {
        return Failed(Other);
      }
      tree := tree[p := Dir(PRIVATE, false, true)];
      return Opened(0);
    }

    /** The child directory, created when asked for and missing. */
    method Descend(current: nat, part: Name, create: bool) returns (r: Result)
      requires current in open && WellFormed(tree) && part != ""
      requires open[current] in tree && tree[open[current]].Dir?
      modifies this`tree, this`open
      ensures var p := old(open)[current] + [part];
        && (r.Failed? ==> open == old(open))
        && (r.Failed? ==> tree == old(tree) || (create && tree == MakeDirs(old(tree), p, PRIVATE)))
        && (r.Opened? ==> r.fd !in old(open) && open == old(open)[r.fd := p] && p in tree && tree[p].Dir?
                          && tree == (if create then MakeDirs(old(tree), p, PRIVATE) else old(tree)))
        && (healthy ==> (r.Opened? <==> if p in old(tree) then old(tree)[p].Dir? else create))
    {
      var p := open[current] + [part];
      assert Parent(p) == open[current] && MakeDirs(tree, Parent(p), PRIVATE) == tree;
      r := OpenDirAtNoSymlink(current, part);
      if r.Failed? && create && r.error == NotFound {
        var made := MkdirAt(current, part);
        if made.Failed? && made.error != Exists {
          return made;
        }
        r := OpenDirAtNoSymlink(current, part);
      }
    }

    /** The head of the loop: one descriptor more than at the start, on the
        directory reached so far. */
    ghost predicate Head(t: Tree, open0: map<nat, Path>, root: Path, names: Path, i: nat, create: bool, fd: nat)
      reads this
    {
      && i <= |names| && WellFormed(t) && WellFormed(tree)
      && fd !in open0 && open == open0[fd := root + names[..i]]
      && root + names[..i] in tree && tree[root + names[..i]].Dir?
      && tree == (if create then MakeDirs(t, root + names[..i], PRIVATE) else t)
      && Openable(t, root, names[..i], create)
    }

    /** One round: down to the next component, and the descriptor before it
        closed; on an error nothing stays open. */
    method Round(fd: nat, part: Name, create: bool,
                 ghost t: Tree, ghost open0: map<nat, Path>, ghost root: Path, ghost names: Path, ghost i: nat)
        returns (next: Result)
      requires Head(t, open0, root, names, i, create, fd) && i < |names| && part == names[i] != ""
      modifies this`tree, this`open
      ensures next.Opened? ==> Head(t, open0, root, names, i + 1, create, next.fd)
      ensures next.Failed? ==> open == open0 && WellFormed(tree)
      ensures next.Failed? ==> tree == t || (create && PartlyMade(t, tree, root, names))
      ensures healthy && next.Failed? ==> !Openable(t, root, names, create)
    {
      DescendOne(t, root, names, i, create);
      OpenableStep(t, root, names, i, create);
      next := Descend(fd, part, create);
      Close(fd);
      assert next.Failed? ==> open == open0;
    }

    /** Holds exactly one descriptor at each loop head, and afterwards one if it
        succeeds and none if not. The one it returns denotes the literal walk of
        the cleaned path, along which, and nowhere else, it made what was
        missing. It succeeds if and only if the tree allows it. */
    method OpenDirBeneath(root: Path, text: string, create: bool) returns (r: Result)
      requires WellFormed(tree)
      modifies this`tree, this`open
      ensures WellFormed(tree)
      ensures r.Failed? ==> open == old(open)
      ensures r.Failed? ==> tree == old(tree) || (create && PartlyMade(old(tree), tree, root, Clean(Subpath(text))))
      ensures r.Opened? ==> r.fd !in old(open) && open == old(open)[r.fd := root + Clean(Subpath(text))]
      ensures r.Opened? ==>
                tree == if create then MakeDirs(old(tree), root + Clean(Subpath(text)), PRIVATE) else old(tree)
      ensures healthy ==>
                (r.Opened? <==> IsLocal(Subpath(text)) && Openable(old(tree), root, Clean(Subpath(text)), create))
      ensures r.Opened? ==> IsLocal(Subpath(text)) && Openable(old(tree), root, Clean(Subpath(text)), create)
      ensures r.Opened? ==> NeverAbove(Subpath(text)) && open[r.fd] == Follow(root, Components(Subpath(text)))
      ensures r.Opened? ==> open[r.fd] in tree && tree[open[r.fd]].Dir?
      ensures tree != old(tree) ==> root in old(tree) && old(tree)[root].Dir?
    {
      var subpath := Subpath(text);
      LocalIff(subpath);
      if !IsLocal(subpath) {
        return Failed(Other);
      }
      var first := OpenRoot(root);
      if first.Failed? {
        return first;
      }
      var currentFD := first.fd;
      var names := Clean(subpath);
      LocalIsPlain(subpath);
      LocalLeadsDown(root, subpath);
      assert root + names[..0] == root && MakeDirs(tree, root, PRIVATE) == tree;
      for i := 0 to |names|
        invariant Head(old(tree), old(open), root, names, i, create, currentFD)
      {
        var part := names[i];
        if part == ".." {
          assert false;
        }
        var next := Round(currentFD, part, create, old(tree), old(open), root, names, i);
        if next.Failed? {
          return next;
        }
        currentFD := next.fd;
      }
      assert names[..|names|] == names;
      return Opened(currentFD);
    }
  }

  /** Creating down to one more component is creating it after the others. */
  lemma DescendOne(t: Tree, root: Path, names: Path, i: nat, create: bool)
    requires WellFormed(t) && i < |names| && Openable(t, root, names[..i], create)
    ensures var p, q := root + names[..i], root + names[..i + 1];
      && q == p + [names[i]] && Parent(q) == p
      && MakeDirs(MakeDirs(t, p, PRIVATE), q, PRIVATE) == MakeDirs(t, q, PRIVATE)
      && (create ==> (q in MakeDirs(t, p, PRIVATE) <==> q in t))
      && (q in t ==> Look(MakeDirs(t, p, PRIVATE), q) == Look(t, q))
      && WellFormed(MakeDirs(t, q, PRIVATE))
  {
    var p, q := root + names[..i], root + names[..i + 1];
    assert q == p + [names[i]] && Parent(q) == p;
    WalkedPrefixes(t, root, names[..i], create);
    MakeDirsLook(t, p, PRIVATE);
    MakeDirsWellFormed(t, p, PRIVATE);
    assert !Upto(q, p);
    assert Look(MakeDirs(t, p, PRIVATE), q) == Look(t, q);
    if q !in t {
      assert forall x | x in t && Upto(x, q) :: Upto(x, p) by { PrefixOfParentAll(q); }
      MakeDirsWellFormed(t, q, PRIVATE);
    } else {
      AncestorsAreDirs(t, q, p);
    }
  }

  lemma PrefixOfParentAll(q: Path)
    requires q != []
    ensures forall x :: Upto(x, q) <==> x == q || Upto(x, Parent(q))
  {
  }

  lemma OpenableStep(t: Tree, root: Path, names: Path, i: nat, create: bool)
    requires i < |names| && Openable(t, root, names[..i], create)
    ensures var q := root + names[..i + 1];
      && (Openable(t, root, names[..i + 1], create) <==> if q in t then t[q].Dir? else create)
      && (!Openable(t, root, names[..i + 1], create) ==> !Openable(t, root, names, create))
  {
    var more := names[..i + 1];
    assert more[..i + 1] == more;
    assert forall j | 0 <= j <= i :: more[..j] == names[..i][..j];
    assert forall j | 0 <= j <= i + 1 :: more[..j] == names[..j];
  }

  /** Every existing prefix of a walk that went through is a directory. */
  lemma WalkedPrefixes(t: Tree, root: Path, names: Path, create: bool)
    requires WellFormed(t) && Openable(t, root, names, create)
    ensures forall x | x in t && Upto(x, root + names) :: t[x].Dir?
  {
    forall x | x in t && Upto(x, root + names) ensures t[x].Dir? {
      if |x| <= |root| {
        assert Upto(x, root) by { assert (root + names)[..|x|] == root[..|x|]; }
        if x != root { AncestorsAreDirs(t, root, x); }
      } else {
        var i := |x| - |root|;
        assert x == root + names[..i];
      }
    }
  }
}
