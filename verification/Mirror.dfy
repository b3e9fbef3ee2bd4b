/** What handling one scanned entry, and a list of them, does to a destination
    tree when no system call fails for reasons outside the tree. */
module Mirror {
  import opened Tree
  import opened PathGuard

  datatype Kind = Directory | Symlink | Regular | Other

  /** A scanned entry; `path` is relative to both roots. */
  datatype Entry = Entry(path: Path, kind: Kind, perm: Perm, target: string)

  datatype Outcome =
    | Sent(bytes: nat)
    | Processed
    | Uptodate
    | Disappeared
    | Skipped
    | NoSpace
    | Cancelled
    | Failed

  /** The entry is reported as done. */
  predicate Done(out: Outcome) {
    out.Sent? || out.Processed? || out.Uptodate?
  }

  datatype Config = Config(root: Path, fileMode: Perm)

  /** The source tree, keyed by paths relative to the source root. */
  type Source = map<Path, Node>

  datatype Step = Step(tree: Tree, out: Outcome)

  datatype Pass = Pass(tree: Tree, outs: seq<Outcome>)

  predicate ValidConfig(c: Config) {
    Plain(c.root) && c.fileMode & 0x12 == 0
  }

  predicate ValidEntry(e: Entry) {
    Plain(e.path) && (e.path == [] ==> e.kind.Directory?)
  }

  function DirPerm(c: Config): Perm {
    c.fileMode | 0x1C0
  }

  function NewDir(c: Config): Node {
    Dir(DirPerm(c), false, true)
  }

  function Dst(c: Config, e: Entry): Path {
    c.root + e.path
  }

  function Copied(c: Config, s: Node, e: Entry): Node
    requires s.File?
  {
    File(s.data, e.perm | c.fileMode, s.mtime)
  }

  /** The owner of a listed directory may do everything with it, and others what
      `FileMode` allows. */
  lemma DirectoryBits(c: Config, who: Class, what: Right)
    ensures May(DirPerm(c), who, what) <==> who.Owner? || May(c.fileMode, who, what)
  {
    EitherMay(c.fileMode, 0x1C0, who, what);
    assert May(0x1C0, who, what) <==> who.Owner?;
  }

  /** A copied file allows what its source does, and what `FileMode` does. */
  lemma CopiedBits(c: Config, s: Node, e: Entry, who: Class, what: Right)
    requires s.File?
    ensures May(Copied(c, s, e).perm, who, what) <==> May(e.perm, who, what) || May(c.fileMode, who, what)
  {
    EitherMay(e.perm, c.fileMode, who, what);
  }

  // ---- One entry ----

  ghost function Route(t: Tree, c: Config, src: Source, e: Entry): Step {
    var p := Dst(c, e);
    match e.kind
    case Directory => if Unlinked(t, p) then MakeDirectory(t, c, p) else Step(t, Failed)
    case Symlink => if Unlinked(t, Parent(p)) then MakeLink(t, c, p, e.target) else Step(t, Failed)
    case Regular =>
      if Unlinked(t, Parent(p)) && Unlinked(t, p) then CopyRegular(t, c, src, e, p) else Step(t, Failed)
    case Other => Step(t, Skipped)
  }

  ghost function MakeDirectory(t: Tree, c: Config, p: Path): Step {
    if !Private(t, Parent(p), true) then Step(t, Failed)
    else if p == c.root then Step(t, Processed)
    else
      var cleared := if p in t && !t[p].Dir? then RemoveTree(t, p) else t;
      if !Private(cleared, p, true) then Step(cleared, Failed)
      else if p in cleared && cleared[p].Dir? && cleared[p].perm == DirPerm(c) then Step(cleared, Uptodate)
      else
        var made := Chmodded(MakeDirs(cleared, p, DirPerm(c)), p, DirPerm(c));
        Step(made, if Private(made, p, false) then Processed else Failed)
  }

  function WithPerm(n: Node, perm: Perm): Node {
    match n
    case Dir(_, _, trusted) => Dir(perm, false, trusted)
    case File(data, _, mtime) => File(data, perm, mtime)
    case Link(_) => n
  }

  function Chmodded(t: Tree, p: Path, perm: Perm): Tree {
    if p in t then t[p := WithPerm(t[p], perm)] else t
  }

  /** The parent directory of a path that does not exist yet. */
  function WithParents(t: Tree, c: Config, p: Path): Tree {
    if Parent(p) !in t then MakeDirs(t, Parent(p), DirPerm(c))
    else if t[Parent(p)].Dir? then t
    else RemoveTree(t, Parent(p))
  }

  ghost function MakeLink(t: Tree, c: Config, p: Path, text: string): Step {
    if FileAbove(t, p) then Step(t, Failed)
    else if p in t && t[p] == Link(text) then Step(t, Uptodate)
    else
      var ready := if p in t then RemoveTree(t, p) else WithParents(t, c, p);
      if Private(ready, Parent(p), false) then Step(ready[p := Link(text)], Processed)
      else Step(ready, Failed)
  }

  ghost function CopyRegular(t: Tree, c: Config, src: Source, e: Entry, p: Path): Step {
    if e.path !in src then Step(t, Disappeared)
    else if !src[e.path].File? then Step(t, Failed)
    else
      var s := src[e.path];
      if p in t && t[p].File? && |s.data| == |t[p].data| && s.mtime <= t[p].mtime then
        Step(t, if s.mtime < t[p].mtime then Processed else Uptodate)
      else
        var ready := if p in t then t else WithParents(t, c, p);
        if Private(ready, Parent(p), false) then
          Step(RemoveTree(ready, p)[p := Copied(c, s, e)], Sent(|s.data|))
        else Step(ready, Failed)
  }

  // ---- A list of entries ----

  ghost function Run(t: Tree, c: Config, src: Source, list: seq<Entry>): Pass
    decreases |list|
  {
    if list == [] then Pass(t, [])
    else
      var before := Run(t, c, src, list[..|list| - 1]);
      var last := Route(before.tree, c, src, list[|list| - 1]);
      Pass(last.tree, before.outs + [last.out])
  }

  ghost predicate ErrorFree(outs: seq<Outcome>) {
    Failed !in outs
  }

  /** A run is a run of the front and then the last entry. */
  lemma RunLast(t: Tree, c: Config, src: Source, list: seq<Entry>, e: Entry)
    ensures var before := Run(t, c, src, list); var last := Route(before.tree, c, src, e);
      && Run(t, c, src, list + [e]) == Pass(last.tree, before.outs + [last.out])
      && (ErrorFree(Run(t, c, src, list + [e]).outs) <==> ErrorFree(before.outs) && !last.out.Failed?)
  {
    var before := Run(t, c, src, list);
    var last := Route(before.tree, c, src, e);
    assert (list + [e])[..|list + [e]| - 1] == list;
    assert forall o :: o in before.outs + [last.out] <==> o in before.outs || o == last.out;
  }

  // ---- The standing invariant of a run ----

  predicate SafeDir(n: Node) {
    n.Dir? && !PublicWritable(n) && n.trusted
  }

  /** What `Runner.prepareDirectory` leaves behind. */
  ghost predicate RootReady(t: Tree, c: Config) {
    && WellFormed(t)
    && c.root in t && t[c.root].Dir?
    && (c.root != [] ==> SafeDir(t[c.root]))
    && forall q | q in t && q != [] && Upto(q, c.root) :: t[q].Dir? && Secure(t[q])
  }

  /** A destination the copier leaves alone: same size, at least as new. */
  predicate Keeps(s: Node, was: Option<Node>)
    requires s.File?
  {
    was.Some? && was.value.File? && |was.value.data| == |s.data| && s.mtime <= was.value.mtime
  }

  /** What handling `e` may leave at its own path, also when it was cut short. */
  predicate OwnNode(c: Config, src: Source, e: Entry, was: Option<Node>, now: Option<Node>) {
    now == was ||
    match e.kind
    case Directory =>
      if was.Some? && was.value.Dir? then now == Some(Dir(DirPerm(c), false, was.value.trusted))
      else now in {None, Some(NewDir(c))}
    case Symlink => now in {None, Some(Link(e.target))}
    case Regular =>
      && e.path in src && src[e.path].File? && !Keeps(src[e.path], was)
      && (now.None? || (now.value.File? && now.value.data == src[e.path].data))
    case Other => false
  }

  /** Names `os.CreateTemp` draws from. */
  predicate IsTemp(q: Path) {
    q != [] && ".tmp-" <= q[|q| - 1]
  }

  /** Everything handling `e` may do at the path `q`. */
  ghost predicate FramedAt(t: Tree, u: Tree, c: Config, src: Source, e: Entry, q: Path) {
    var p := Dst(c, e);
    || Look(u, q) == Look(t, q)
    || (q == p && p != c.root && OwnNode(c, src, e, Look(t, q), Look(u, q)))
    || (Above(p, q) && q !in u && !(p in t && t[p].Dir? && e.kind.Directory?))
    || (Above(c.root, q) && Above(q, p) && q !in t && Look(u, q) == Some(NewDir(c)))
    || (q !in t && q in u && u[q].File? && IsTemp(q) && Parent(q) == Parent(p) && e.kind.Regular?)
  }

  ghost predicate Frame(t: Tree, u: Tree, c: Config, src: Source, e: Entry) {
    WellFormed(u) && forall q :: FramedAt(t, u, c, src, e, q)
  }

  // ---- Facts about single edits ----

  lemma ConfigDirs(c: Config)
    requires ValidConfig(c)
    ensures SafeDir(NewDir(c)) && Secure(NewDir(c))
    ensures !PublicWritable(Dir(DirPerm(c), false, false))
    ensures OwnerWritable(Dir(DirPerm(c), false, false))
  {
  }

  /** Paths below the root that are missing lie strictly below it. */
  lemma MissingIsBelowRoot(t: Tree, root: Path, p: Path, q: Path)
    requires WellFormed(t) && root in t && Upto(root, p) && Upto(q, p) && q !in t
    ensures Above(root, q)
  {
    if |q| <= |root| {
      PrefixesCompare(p, q, root);
      if q != root { AncestorsAreDirs(t, root, q); }
    } else {
      PrefixesCompare(p, root, q);
    }
  }

  lemma DstParent(c: Config, e: Entry)
    requires e.path != []
    ensures Dst(c, e) != [] && Above(c.root, Dst(c, e)) && Upto(c.root, Parent(Dst(c, e)))
    ensures Dst(c, e) != c.root
    ensures Above(Parent(Dst(c, e)), Dst(c, e))
  {
  }

  /** The root survives any edit of the framed kind. */
  lemma FrameKeepsRoot(t: Tree, u: Tree, c: Config, src: Source, e: Entry)
    requires ValidConfig(c) && ValidEntry(e) && RootReady(t, c) && Frame(t, u, c, src, e)
    ensures RootReady(u, c)
  {
    var p := Dst(c, e);
    forall q | Upto(q, c.root) ensures Look(u, q) == Look(t, q) {
      assert FramedAt(t, u, c, src, e, q);
      assert Upto(q, p) by { assert p[..|c.root|] == c.root; assert q == p[..|q|]; }
      if q != c.root { AncestorsAreDirs(t, c.root, q); }
      assert q in t;
    }
    assert Look(u, c.root) == Look(t, c.root);
  }

  /** The whole effect of an entry that changed something at or above `p`. */
  ghost predicate Edited(t: Tree, u: Tree, c: Config, p: Path) {
    && WellFormed(u)
    && forall q | q != p ::
         Look(u, q) == if q !in t && Above(q, p) then Some(NewDir(c))
                       else if Above(p, q) && !(p in u && u[p].Dir?) then None
                       else Look(t, q)
  }

  lemma LeafAdded(t: Tree, p: Path, n: Node)
    requires WellFormed(t) && p !in t && p != [] && Parent(p) in t && t[Parent(p)].Dir?
    ensures WellFormed(t[p := n])
  {
  }

  /** Replacing whatever is at `p` by a leaf, or by nothing. */
  lemma Replaced(t: Tree, c: Config, p: Path, n: Node)
    requires WellFormed(t) && p != [] && Parent(p) in t && t[Parent(p)].Dir? && !n.Dir?
    ensures Edited(t, RemoveTree(t, p), c, p) && p !in RemoveTree(t, p)
    ensures Edited(t, RemoveTree(t, p)[p := n], c, p)
  {
    RemoveTreeWellFormed(t, p);
    PrefixOfParent(p, Parent(p));
    LeafAdded(RemoveTree(t, p), p, n);
    forall q ensures Upto(p, q) <==> q == p || Above(p, q) {}
    forall q | Above(q, p) ensures q in t {
      PrefixOfParent(p, q);
      if q != Parent(p) { AncestorsAreDirs(t, Parent(p), q); }
    }
    assert forall q :: Look(RemoveTree(t, p), q) == if Upto(p, q) then None else Look(t, q);
    assert forall q | q != p :: Look(RemoveTree(t, p)[p := n], q) == Look(RemoveTree(t, p), q);
  }

  lemma ParentsMade(t: Tree, c: Config, e: Entry, n: Node)
    requires ValidConfig(c) && ValidEntry(e) && e.path != [] && RootReady(t, c)
    requires !FileAbove(t, Dst(c, e)) && Unlinked(t, Parent(Dst(c, e))) && Dst(c, e) !in t && !n.Dir?
    ensures var u := WithParents(t, c, Dst(c, e)); var p := Dst(c, e);
            && Edited(t, u, c, p) && Edited(t, u[p := n], c, p)
            && RemoveTree(u, p) == u
            && Parent(p) in u && u[Parent(p)].Dir? && p !in u
  {
    var p := Dst(c, e);
    DstParent(c, e);
    var u := WithParents(t, c, p);
    forall q ensures Above(q, p) <==> Upto(q, Parent(p)) { PrefixOfParent(p, q); }
    forall q | q in t && Upto(q, Parent(p)) ensures t[q].Dir? {
      assert Above(q, p);
      if q != Parent(p) { PrefixOfParent(Parent(p), q); assert Above(q, Parent(p)); }
    }
    MakeDirsLook(t, Parent(p), DirPerm(c));
    MakeDirsWellFormed(t, Parent(p), DirPerm(c));
    if Parent(p) in t {
      forall q | Above(q, p) ensures q in t {
        if q != Parent(p) { AncestorsAreDirs(t, Parent(p), q); }
      }
    }
    assert forall q :: Look(u, q) == if q !in t && Above(q, p) then Some(NewDir(c)) else Look(t, q);
    assert Look(u, p) == Look(t, p);
    assert WellFormed(u);
    forall q | Above(p, q) || q == p ensures q !in u {
      if q in u && q != p { AncestorsAreDirs(u, q, p); }
    }
    LeafAdded(u, p, n);
    assert RemoveTree(u, p) == u;
  }

  // ---- What one entry does ----

  lemma LinkEdits(t: Tree, c: Config, src: Source, e: Entry)
    requires ValidConfig(c) && ValidEntry(e) && RootReady(t, c) && e.kind.Symlink?
    ensures var s := Route(t, c, src, e); var p := Dst(c, e);
            && (s.tree == t || Edited(t, s.tree, c, p))
            && (s.out.Failed? ==> Look(s.tree, p) == Look(t, p) || Look(s.tree, p).None?)
            && (!s.out.Failed? ==> Look(s.tree, p) == Some(Link(e.target)) && s.out in {Uptodate, Processed})
  {
    var p := Dst(c, e);
    DstParent(c, e);
    if Unlinked(t, Parent(p)) && !FileAbove(t, p) && !(p in t && t[p] == Link(e.target)) {
      if p in t { Replaced(t, c, p, Link(e.target)); } else { ParentsMade(t, c, e, Link(e.target)); }
    }
  }

  /** The effect of copying a regular file to `p`. */
  ghost predicate Copies(t: Tree, c: Config, src: Source, e: Entry, p: Path, s: Step) {
    && (s.tree == t || Edited(t, s.tree, c, p))
    && (!s.out.Sent? ==> Look(s.tree, p) == Look(t, p))
    && (s.out.Sent? ==> e.path in src && src[e.path].File? && Look(s.tree, p) == Some(Copied(c, src[e.path], e)))
  }

  lemma CopyOver(t: Tree, c: Config, src: Source, e: Entry, p: Path)
    requires WellFormed(t) && p in t && p != [] && Parent(p) in t && t[Parent(p)].Dir?
    requires e.path in src && src[e.path].File?
    ensures Copies(t, c, src, e, p, CopyRegular(t, c, src, e, p))
  {
    Replaced(t, c, p, Copied(c, src[e.path], e));
  }

  lemma CopyNew(t: Tree, c: Config, src: Source, e: Entry, p: Path)
    requires ValidConfig(c) && ValidEntry(e) && e.path != [] && RootReady(t, c) && p == Dst(c, e)
    requires p !in t && e.path in src && src[e.path].File?
    requires Unlinked(t, p) && Unlinked(t, Parent(p)) && !FileAbove(t, p)
    ensures Copies(t, c, src, e, p, CopyRegular(t, c, src, e, p))
  {
    ParentsMade(t, c, e, Copied(c, src[e.path], e));
  }

  lemma RegularEdits(t: Tree, c: Config, src: Source, e: Entry)
    requires ValidConfig(c) && ValidEntry(e) && RootReady(t, c) && e.kind.Regular?
    ensures Copies(t, c, src, e, Dst(c, e), Route(t, c, src, e))
  {
    var p := Dst(c, e);
    DstParent(c, e);
    if Unlinked(t, p) && !FileAbove(t, p) && e.path in src && src[e.path].File? {
      if p in t { CopyOver(t, c, src, e, p); } else { CopyNew(t, c, src, e, p); }
    }
  }

  /** The destination is a file of the source's size and modification time. */
  predicate SameThere(t: Tree, c: Config, src: Source, e: Entry) {
    var p := Dst(c, e);
    && e.path in src && src[e.path].File? && p in t && t[p].File?
    && |src[e.path].data| == |t[p].data| && src[e.path].mtime == t[p].mtime
  }

  /** The destination is a file of the source's size that is strictly newer. */
  predicate NewerThere(t: Tree, c: Config, src: Source, e: Entry) {
    var p := Dst(c, e);
    && e.path in src && src[e.path].File? && p in t && t[p].File?
    && |src[e.path].data| == |t[p].data| && src[e.path].mtime < t[p].mtime
  }

  lemma FileIsUnlinked(t: Tree, p: Path)
    requires WellFormed(t) && p in t && t[p].File? && p != []
    ensures Unlinked(t, p) && Unlinked(t, Parent(p))
  {
    AllAncestors(t);
    PrefixOfParent(p, Parent(p));
    assert forall q | Above(q, Parent(p)) :: Above(q, p);
  }

  /** In every tree, a regular entry is up to date exactly when the destination
      has the source's size and time, processed exactly when it has its size and
      is newer, and gone exactly when nothing is at a path that could be opened.
      A file that is sent is neither, and counts all its bytes. */
  lemma RegularOutcomeIff(t: Tree, c: Config, src: Source, e: Entry)
    requires ValidConfig(c) && ValidEntry(e) && RootReady(t, c) && e.kind.Regular?
    ensures var out := Route(t, c, src, e).out; var p := Dst(c, e);
            && (out.Uptodate? <==> SameThere(t, c, src, e))
            && (out.Processed? <==> NewerThere(t, c, src, e))
            && (out.Disappeared? <==> e.path !in src && Unlinked(t, Parent(p)) && Unlinked(t, p))
            && (out.Sent? ==> e.path in src && src[e.path].File? && out.bytes == |src[e.path].data|
                              && !Keeps(src[e.path], Look(t, p)))
            && (out.Sent? || out.Processed? || out.Uptodate? || out.Disappeared? || out.Failed?)
  {
    DstParent(c, e);
    var p := Dst(c, e);
    if p in t && t[p].File? { FileIsUnlinked(t, p); }
  }

  /** A file that was sent has its source's bytes, size and time from then on, and
      allows what its source and `FileMode` allow: it is up to date. */
  lemma SentIsCurrent(t: Tree, c: Config, src: Source, e: Entry)
    requires ValidConfig(c) && ValidEntry(e) && RootReady(t, c) && e.kind.Regular? && Route(t, c, src, e).out.Sent?
    ensures var u := Route(t, c, src, e).tree; var p := Dst(c, e);
            && SameThere(u, c, src, e) && u[p].data == src[e.path].data
            && forall who, what :: May(u[p].perm, who, what) <==> May(e.perm, who, what) || May(c.fileMode, who, what)
  {
    RegularEdits(t, c, src, e);
    assert Look(Route(t, c, src, e).tree, Dst(c, e)).Some?;
    forall who, what
      ensures May(Copied(c, src[e.path], e).perm, who, what) <==> May(e.perm, who, what) || May(c.fileMode, who, what)
    {
      CopiedBits(c, src[e.path], e, who, what);
    }
  }

  /** A link or directory entry that succeeds is up to date exactly when it was
      there as it should be; the root only counts as processed. */
  lemma OtherOutcomes(t: Tree, c: Config, src: Source, e: Entry)
    requires ValidConfig(c) && ValidEntry(e) && RootReady(t, c) && !Route(t, c, src, e).out.Failed?
    ensures var out := Route(t, c, src, e).out; var was := Look(t, Dst(c, e));
            && (e.kind.Symlink? ==> out == if was == Some(Link(e.target)) then Uptodate else Processed)
            && (e.kind.Directory? ==>
                  out == if e.path != [] && was.Some? && was.value.Dir? && was.value.perm == DirPerm(c)
                         then Uptodate else Processed)
            && (e.kind.Other? ==> out == Skipped && Route(t, c, src, e).tree == t)
  {
    if e.path != [] { DstParent(c, e); } else { assert Dst(c, e) == c.root; }
  }

  lemma DirectoryEdits(t: Tree, c: Config, src: Source, e: Entry)
    requires ValidConfig(c) && ValidEntry(e) && RootReady(t, c) && e.kind.Directory?
    ensures var s := Route(t, c, src, e); var p := Dst(c, e);
            && (s.tree == t || (e.path != [] && Edited(t, s.tree, c, p)))
            && (s.tree != t && p in t && t[p].Dir? ==> s.tree == t[p := WithPerm(t[p], DirPerm(c))])
            && (s.tree != t && !(p in t && t[p].Dir?) ==> Look(s.tree, p) in {None, Some(NewDir(c))})
            && (!s.out.Failed? ==> p in s.tree && s.tree[p].Dir? && s.out in {Uptodate, Processed})
  {
    var p := Dst(c, e);
    if e.path == [] {
      assert p == c.root;
    } else if Unlinked(t, p) {
      DstParent(c, e);
      if p in t && t[p].Dir? {
        DirectoryKept(t, c, p);
      } else if p in t {
        DirectoryOverFile(t, c, p);
      } else {
        DirectoryCreated(t, c, p);
      }
    }
  }

  lemma DirectoryKept(t: Tree, c: Config, p: Path)
    requires WellFormed(t) && p in t && t[p].Dir? && p != c.root && p != []
    ensures var s := MakeDirectory(t, c, p);
            && (s.tree == t || (s.tree == t[p := WithPerm(t[p], DirPerm(c))] && Edited(t, s.tree, c, p)))
            && (!s.out.Failed? ==> s.out in {Uptodate, Processed})
  {
    AllAncestors(t);
    var u := t[p := WithPerm(t[p], DirPerm(c))];
    assert forall q | q != p :: Look(u, q) == Look(t, q);
  }

  lemma DirectoryOverFile(t: Tree, c: Config, p: Path)
    requires WellFormed(t) && p in t && !t[p].Dir? && p != c.root && p != [] && Unlinked(t, p)
    ensures var s := MakeDirectory(t, c, p);
            && (s.tree == t || (Edited(t, s.tree, c, p) && Look(s.tree, p) in {None, Some(NewDir(c))}))
            && (!s.out.Failed? ==> Look(s.tree, p) == Some(NewDir(c)) && s.out == Processed)
  {
    var cleared := RemoveTree(t, p);
    Replaced(t, c, p, Link(""));
    AllAncestors(t);
    assert Unlinked(cleared, p) by {
      forall q | q in cleared && Above(q, p) ensures cleared[q].Dir? { assert Look(cleared, q) == Look(t, q); }
    }
    DirectoryCreated(cleared, c, p);
    var u := Chmodded(MakeDirs(cleared, p, DirPerm(c)), p, DirPerm(c));
    forall q | q != p ensures Look(u, q) == Look(t, q) && Look(cleared, q) == Look(t, q) {
      assert !(Above(p, q) && q in t);
      assert Look(cleared, q) == Look(t, q);
    }
    assert Edited(t, u, c, p);
  }

  lemma DirectoryCreated(t: Tree, c: Config, p: Path)
    requires WellFormed(t) && Unlinked(t, p) && p !in t && p != []
    ensures var u := Chmodded(MakeDirs(t, p, DirPerm(c)), p, DirPerm(c));
            Edited(t, u, c, p) && Look(u, p) == Some(NewDir(c))
  {
    forall q | q in t && Upto(q, p) ensures t[q].Dir? { PrefixOfParent(p, q); }
    MakeDirsLook(t, p, DirPerm(c));
    MakeDirsWellFormed(t, p, DirPerm(c));
    var made := MakeDirs(t, p, DirPerm(c));
    assert Look(made, p) == Some(NewDir(c)) by { assert Upto(p, p); }
    assert made[p := WithPerm(made[p], DirPerm(c))] == made;
    forall q ensures Upto(q, p) <==> q == p || Above(q, p) { PrefixOfParent(p, q); }
  }

  /** Nothing outside the frame of an entry changes, whatever the tree. */
  lemma RouteFrame(t: Tree, c: Config, src: Source, e: Entry)
    requires ValidConfig(c) && ValidEntry(e) && RootReady(t, c)
    ensures Frame(t, Route(t, c, src, e).tree, c, src, e)
    ensures RootReady(Route(t, c, src, e).tree, c)
  {
    var u := Route(t, c, src, e).tree;
    match e.kind {
      case Directory => DirectoryEdits(t, c, src, e);
      case Symlink => LinkEdits(t, c, src, e);
      case Regular =>
        RegularEdits(t, c, src, e);
        if u != t { assert e.path in src && src[e.path].File? && !Keeps(src[e.path], Look(t, Dst(c, e))); }
      case Other =>
    }
    if u != t {
      DstParent(c, e);
      EditIsFramed(t, u, c, src, e);
    }
    FrameKeepsRoot(t, u, c, src, e);
  }

  lemma EditIsFramed(t: Tree, u: Tree, c: Config, src: Source, e: Entry)
    requires ValidConfig(c) && ValidEntry(e) && e.path != [] && RootReady(t, c)
    requires Edited(t, u, c, Dst(c, e)) && OwnNode(c, src, e, Look(t, Dst(c, e)), Look(u, Dst(c, e)))
    ensures Frame(t, u, c, src, e)
  {
    var p := Dst(c, e);
    DstParent(c, e);
    forall q | q !in t && Above(q, p) ensures Above(c.root, q) {
      MissingIsBelowRoot(t, c.root, p, q);
    }
    AllAncestors(t);
  }
}
