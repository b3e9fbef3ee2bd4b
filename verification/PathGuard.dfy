/** What the path guards of `internal/util` accept, stated over all prefixes. */
module PathGuard {
  import opened Tree

  // ---- Permission bits, one by one ----

  /** Whom a permission bit is for, and what it allows. */
  datatype Class = Owner | Group | Others

  datatype Right = Read | Write | Search

  /** The nine bits are the three rights of the owner, then of the group, then of
      all others, counted from the top. */
  function BitOf(who: Class, what: Right): Perm {
    match (who, what)
    case (Owner, Read) => 0x100
    case (Owner, Write) => 0x80
    case (Owner, Search) => 0x40
    case (Group, Read) => 0x20
    case (Group, Write) => 0x10
    case (Group, Search) => 0x8
    case (Others, Read) => 0x4
    case (Others, Write) => 0x2
    case (Others, Search) => 0x1
  }

  predicate May(perm: Perm, who: Class, what: Right) {
    perm & BitOf(who, what) != 0
  }

  /** Somebody besides the owner may change the directory. */
  predicate OpenToOthers(n: Node)
    requires n.Dir?
  {
    May(n.perm, Group, Write) || May(n.perm, Others, Write)
  }

  /** Group or other write bits, octal 022. */
  predicate PublicWritable(n: Node)
    requires n.Dir?
  {
    n.perm & 0x12 != 0
  }

  /** Owner write bit, octal 200. */
  predicate OwnerWritable(n: Node)
    requires n.Dir?
  {
    n.perm & 0x80 != 0
  }

  predicate Secure(n: Node)
    requires n.Dir?
  {
    && (PublicWritable(n) ==> n.sticky)
    && (OwnerWritable(n) ==> n.trusted)
  }

  /** No existing component is a link and only the last may be a file. */
  ghost predicate Unlinked(t: Tree, path: Path) {
    && (forall q | q in t && Above(q, path) :: t[q].Dir?)
    && (path in t ==> !t[path].Link?)
  }

  /** `q` is the last existing directory above a missing part of `path`. */
  predicate Edge(t: Tree, q: Path, path: Path) {
    q < path && path[..|q| + 1] !in t
  }

  ghost predicate Private(t: Tree, path: Path, tail: bool) {
    && Unlinked(t, path)
    && (forall q | q in t && Upto(q, path) && q != [] && t[q].Dir? :: Secure(t[q]))
    && (path !in t ==>
          && tail
          && forall q | q in t && q != [] && t[q].Dir? && Edge(t, q, path) :: !PublicWritable(t[q]))
  }

  /** A path the guard accepts, and each of its prefixes, resolves with and
      without following links to the literal component-by-component walk. */
  lemma GuardedResolution(t: Tree, path: Path, q: Path, follow: bool)
    requires WellFormed(t) && Plain(path) && Unlinked(t, path) && Upto(q, path)
    ensures Resolve(t, q, follow) == if q == [] || Parent(q) in t then At(q) else NoEntry
  {
    forall r | r in t && Above(r, q) ensures t[r].Dir? {
      assert Above(r, path);
    }
    if q != path { assert Above(q, path); }
    ResolveIsLiteral(t, q, follow);
  }

  // ---- What the guards ask of permissions, in terms of single bits ----

  lemma MasksAreBits(n: Node)
    requires n.Dir?
    ensures PublicWritable(n) <==> OpenToOthers(n)
    ensures OwnerWritable(n) <==> May(n.perm, Owner, Write)
  {
  }

  /** A directory that somebody who is not trusted may change: through the group
      or as anybody unless it is sticky, or as its owner. */
  predicate Exposed(n: Node) {
    n.Dir? && ((OpenToOthers(n) && !n.sticky) || (May(n.perm, Owner, Write) && !n.trusted))
  }

  ghost predicate SomeExposed(t: Tree, path: Path) {
    exists q :: q in t && q != [] && Upto(q, path) && Exposed(t[q])
  }

  /** The last existing directory above a missing path is open to others. */
  ghost predicate TailExposed(t: Tree, path: Path) {
    path !in t && exists q :: q in t && q != [] && t[q].Dir? && Edge(t, q, path) && OpenToOthers(t[q])
  }

  /** A path is private exactly when it meets no link and no file on the way, no
      directory on it is exposed, and its missing part, where one is allowed, does
      not start in a directory that is open to others. */
  lemma PrivateIff(t: Tree, path: Path, tail: bool)
    ensures Private(t, path, tail) <==>
            && Unlinked(t, path) && !SomeExposed(t, path)
            && (path !in t ==> tail && !TailExposed(t, path))
  {
    forall q | q in t && t[q].Dir?
      ensures (PublicWritable(t[q]) <==> OpenToOthers(t[q])) && (Secure(t[q]) <==> !Exposed(t[q]))
    {
      MasksAreBits(t[q]);
    }
  }

  /** The write bit of the group alone, or that of the others alone, is enough to
      refuse a directory that is not sticky; so is the owner's if he is not
      trusted. */
  lemma OneBitRefuses(t: Tree, path: Path, tail: bool, q: Path, who: Class)
    requires q in t && q != [] && Upto(q, path) && t[q].Dir? && May(t[q].perm, who, Write)
    requires if who.Owner? then !t[q].trusted else !t[q].sticky
    ensures !Private(t, path, tail)
  {
    PrivateIff(t, path, tail);
    assert Exposed(t[q]);
  }

  lemma JoinedBits(a: Perm, b: Perm, mask: Perm)
    ensures (a | b) & mask != 0 <==> a & mask != 0 || b & mask != 0
  {
    assert (a | b) & mask == (a & mask) | (b & mask);
  }

  /** The bits of two modes joined. */
  lemma EitherMay(a: Perm, b: Perm, who: Class, what: Right)
    ensures May(a | b, who, what) <==> May(a, who, what) || May(b, who, what)
  {
    JoinedBits(a, b, BitOf(who, what));
  }
}
