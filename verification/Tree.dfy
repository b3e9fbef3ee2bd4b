/** A POSIX file tree as a map from component sequences to nodes, and the
    pathname resolution every system call goes through. */
module Tree {

  datatype Option<+T> = None | Some(value: T)

  type Name = string
  type Path = seq<Name>
  type Bytes = seq<bv8>
  type Perm = bv9

  /** `trusted` says that the owner is root or the effective user. */
  datatype Node =
    | Dir(perm: Perm, sticky: bool, trusted: bool)
    | File(data: Bytes, perm: Perm, mtime: int)
    | Link(text: string)

  type Tree = map<Path, Node>

  function Parent(p: Path): Path {
    if p == [] then [] else p[..|p| - 1]
  }

  /** `q` is a proper ancestor of `p`. */
  predicate Above(q: Path, p: Path) {
    q < p
  }

  /** `q` is `p` or one of its ancestors. */
  predicate Upto(q: Path, p: Path) {
    q <= p
  }

  predicate Plain(p: Path) {
    forall i | 0 <= i < |p| :: p[i] != "" && p[i] != "." && p[i] != ".."
  }

  /** Every node hangs below directories that exist. */
  predicate WellFormed(t: Tree) {
    && [] in t && t[[]].Dir?
    && forall p {:trigger Parent(p)} | p in t && p != [] :: Parent(p) in t && t[Parent(p)].Dir?
  }

  function Look(t: Tree, p: Path): Option<Node> {
    if p in t then Some(t[p]) else None
  }

  lemma {:induction false} AncestorsAreDirs(t: Tree, p: Path, q: Path)
    requires WellFormed(t) && p in t && q < p
    ensures q in t && t[q].Dir?
    decreases |p|
  {
    if |q| < |p| - 1 {
      assert q < Parent(p);
      AncestorsAreDirs(t, Parent(p), q);
    } else {
      assert q == Parent(p);
    }
  }

  /** The same for all prefixes of all nodes at once. */
  lemma AllAncestors(t: Tree)
    requires WellFormed(t)
    ensures forall p, q | p in t && Above(q, p) :: q in t && t[q].Dir?
  {
    forall p, q | p in t && Above(q, p) ensures q in t && t[q].Dir? {
      AncestorsAreDirs(t, p, q);
    }
  }

  lemma UptoUpto(a: Path, b: Path, c: Path)
    requires Upto(a, b) && Upto(b, c)
    ensures Upto(a, c)
  {
    assert a == b[..|a|] == c[..|a|];
  }

  lemma PrefixOfParent(p: Path, q: Path)
    requires p != []
    ensures Above(q, p) <==> Upto(q, Parent(p))
    ensures Upto(q, p) <==> q == p || Above(q, p)
  {
  }

  // ---- Pathname resolution (IEEE Std 1003.1-2017, XBD section 4.13) ----

  datatype Spot = At(path: Path) | NoEntry | NotDirectory | TooManyLinks

  const MAX_LINKS: nat := 40

  /** The components of a slash-separated text, empty ones dropped. */
  function Components(text: string): Path {
    SplitFrom(text, "")
  }

  function SplitFrom(text: string, part: Name): Path
    decreases |text|
  {
    if text == "" then (if part == "" then [] else [part])
    else if text[0] == '/' then (if part == "" then [] else [part]) + SplitFrom(text[1..], "")
    else SplitFrom(text[1..], part + [text[0]])
  }

  function LinkBase(cur: Path, text: string): Path {
    if text != "" && text[0] == '/' then [] else cur
  }

  /** Resolves `rest` below the node `cur`; only the last component may be
      missing.  `follow` says whether a final symbolic link is followed. */
  function Walk(t: Tree, cur: Path, rest: Path, follow: bool, budget: nat): Spot
    decreases budget, |rest|
  {
    if rest == [] then At(cur)
    else if cur !in t then NoEntry
    else if !t[cur].Dir? then NotDirectory
    else if rest[0] == "." then Walk(t, cur, rest[1..], follow, budget)
    else if rest[0] == ".." then Walk(t, Parent(cur), rest[1..], follow, budget)
    else
      var next := cur + [rest[0]];
      if next !in t then (if |rest| == 1 then At(next) else NoEntry)
      else if t[next].Link? && (|rest| > 1 || follow) then
        if budget == 0 then TooManyLinks
        else Walk(t, LinkBase(cur, t[next].text), Components(t[next].text) + rest[1..], follow, budget - 1)
      else Walk(t, next, rest[1..], follow, budget)
  }

  function Resolve(t: Tree, path: Path, follow: bool): Spot {
    Walk(t, [], path, follow, MAX_LINKS)
  }

  /** No symbolic link strictly above `path`. */
  ghost predicate NoLinkAbove(t: Tree, path: Path) {
    forall q | q in t && Above(q, path) :: !t[q].Link?
  }

  ghost predicate FileAbove(t: Tree, path: Path) {
    exists q :: q in t && Above(q, path) && t[q].File?
  }

  /** Component-by-component resolution that never follows a link. */
  ghost function LiteralSpot(t: Tree, path: Path): Spot {
    if FileAbove(t, path) then NotDirectory
    else if path == [] || Parent(path) in t then At(path)
    else NoEntry
  }

  /** Prefixes of one path are prefixes of each other. */
  lemma PrefixesCompare(p: Path, q: Path, r: Path)
    requires q <= p && r <= p && |q| <= |r|
    ensures q <= r && Upto(q, r)
  {
  }

  lemma {:induction false} WalkIsLiteral(t: Tree, cur: Path, rest: Path, follow: bool, budget: nat)
    requires WellFormed(t) && Plain(rest) && cur in t && !t[cur].Link?
    requires NoLinkAbove(t, cur + rest)
    requires follow && cur + rest in t ==> !t[cur + rest].Link?
    ensures Walk(t, cur, rest, follow, budget) == LiteralSpot(t, cur + rest)
    decreases |rest|
  {
    var path := cur + rest;
    if rest == [] {
      assert path == cur;
      forall q | q in t && Above(q, path) ensures t[q].Dir? { AncestorsAreDirs(t, cur, q); }
      if path != [] { assert Parent(path) in t; }
    } else if t[cur].File? {
      assert cur < path;
    } else {
      var next := cur + [rest[0]];
      assert next + rest[1..] == path;
      if |rest| == 1 {
        assert next == path && Parent(path) == cur;
        forall q | q in t && Above(q, path) ensures t[q].Dir? {
          PrefixOfParent(path, q);
          if q != cur { AncestorsAreDirs(t, cur, q); }
        }
        if next in t && !t[next].Link? {
          assert Walk(t, next, rest[1..], follow, budget) == At(next);
        }
      } else {
        assert next < path;
        if next in t {
          WalkIsLiteral(t, next, rest[1..], follow, budget);
        } else {
          MissingBelow(t, cur, next, path);
        }
      }
    }
  }

  lemma MissingBelow(t: Tree, cur: Path, next: Path, path: Path)
    requires WellFormed(t) && cur in t && t[cur].Dir?
    requires next !in t && next < path && next != [] && Parent(next) == cur && |path| > |next|
    ensures LiteralSpot(t, path) == NoEntry
  {
    forall q | q in t && Above(q, path) ensures t[q].Dir? {
      if |q| < |next| {
        PrefixesCompare(path, q, next);
        PrefixOfParent(next, q);
        if q != cur { AncestorsAreDirs(t, cur, q); }
      } else {
        PrefixesCompare(path, next, q);
        if next != q { AncestorsAreDirs(t, q, next); }
      }
    }
    PrefixOfParent(path, next);
    if Parent(path) in t && next != Parent(path) {
      AncestorsAreDirs(t, Parent(path), next);
    }
  }

  /** Where no link lies on the way, following resolution is the literal walk. */
  lemma ResolveIsLiteral(t: Tree, path: Path, follow: bool)
    requires WellFormed(t) && Plain(path) && NoLinkAbove(t, path)
    requires follow && path in t ==> !t[path].Link?
    ensures Resolve(t, path, follow) == LiteralSpot(t, path)
  {
    assert [] + path == path;
    WalkIsLiteral(t, [], path, follow, MAX_LINKS);
  }

  // ---- Tree edits ----

  function RemoveTree(t: Tree, p: Path): (r: Tree) {
    map q | q in t && !(p <= q) :: t[q]
  }

  /** Creates every missing directory down to `p`. */
  function MakeDirs(t: Tree, p: Path, perm: Perm): (r: Tree)
    decreases |p|
  {
    if p in t || p == [] then t
    else MakeDirs(t, Parent(p), perm)[p := Dir(perm, false, true)]
  }

  lemma {:induction false} MakeDirsLook(t: Tree, p: Path, perm: Perm)
    requires WellFormed(t)
    ensures forall q :: Look(MakeDirs(t, p, perm), q) ==
                        if q !in t && Upto(q, p) then Some(Dir(perm, false, true)) else Look(t, q)
    decreases |p|
  {
    if p in t || p == [] {
      forall q | Upto(q, p) ensures q in t {
        if p in t && q != p { AncestorsAreDirs(t, p, q); }
      }
    } else {
      MakeDirsLook(t, Parent(p), perm);
      forall q ensures Upto(q, p) <==> q == p || Upto(q, Parent(p)) { PrefixOfParent(p, q); }
    }
  }

  lemma {:induction false} MakeDirsWellFormed(t: Tree, p: Path, perm: Perm)
    requires WellFormed(t)
    requires forall q | q in t && Upto(q, p) :: t[q].Dir?
    ensures WellFormed(MakeDirs(t, p, perm))
    ensures p in MakeDirs(t, p, perm) && MakeDirs(t, p, perm)[p].Dir?
    decreases |p|
  {
    if p in t || p == [] {
    } else {
      forall q ensures Upto(q, p) <==> q == p || Upto(q, Parent(p)) { PrefixOfParent(p, q); }
      MakeDirsWellFormed(t, Parent(p), perm);
    }
  }

  lemma RemoveTreeWellFormed(t: Tree, p: Path)
    requires WellFormed(t) && p != []
    ensures WellFormed(RemoveTree(t, p))
  {
  }

  lemma SameLookSameTree(t: Tree, u: Tree)
    requires forall q :: Look(t, q) == Look(u, q)
    ensures t == u
  {
    assert forall q | q in t || q in u :: Look(t, q) == Look(u, q);
  }
}
