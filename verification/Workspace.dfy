/** The workspace of one mount transaction: when its paths pass the check, and
    what every state of a run has in common. */
module Workspace {
  import opened Lexical
  import opened Namespace
  import opened PathGuard
  import opened Tree

  // ---- The check of a workspace path ----

  /** The empty name and `.` stand for the workspace itself. */
  predicate Accepted(name: string) {
    name == "" || name == "." || IsLocal(name)
  }

  function Inside(name: string): (c: Path)
    requires Accepted(name)
  {
    if name == "" || name == "." then [] else Clean(name)
  }

  lemma InsideIsPlain(name: string)
    requires Accepted(name)
    ensures Plain(Inside(name))
  {
    if name != "" && name != "." {
      LocalIsPlain(name);
    }
  }

  /** One component: missing, or no link and not resolved out of the root. */
  predicate Passes(t: Tree, root: Path, p: Path) {
    match Resolve(t, p, false)
    case At(q) =>
      q !in t || (!t[q].Link? && var r := Resolve(t, p, true); r.At? && r.path in t && Upto(root, r.path))
    case NoEntry => true
    case _ => false
  }

  /** What `safeWorkspacePath` accepts. */
  ghost predicate Safe(t: Tree, root: Path, name: string) {
    && Accepted(name)
    && forall i | 1 <= i <= |Inside(name)| :: Passes(t, root, root + Inside(name)[..i])
  }

  // ---- One transaction ----

  const PINNED_SOURCE := ".pinned-src"
  const PINNED_DESTINATION := ".pinned-dst"

  /** `before` is the state the run starts from; `parent` the directory for
      temporary files as it is named and `place` where it resolves; `name` the
      fresh name of the workspace in it; `content` what the source mount holds. */
  datatype Setting = Setting(before: Image, parent: Path, place: Path, name: Name,
                             source: string, destination: string, content: Volume) {
    ghost predicate Valid() {
      && WellFormed(before.tree) && Plain(parent + [name])
      && Resolve(before.tree, parent, true) == At(place) && place in before.tree && before.tree[place].Dir?
      && Root() !in before.tree
      && (forall m | m in before.mounts :: m.point in before.tree)
      && WellFormed(content.tree)
    }

    /** The workspace as it is named, and where it really is. */
    function Temp(): Path {
      parent + [name]
    }

    function Root(): Path {
      place + [name]
    }

    predicate BothAccepted() {
      Accepted(source) && Accepted(destination)
    }

    /** A link lies above the workspace. */
    predicate Linked() {
      parent != place
    }

    function S(): Path
      requires BothAccepted()
    {
      Inside(source)
    }

    function D(): Path
      requires BothAccepted()
    {
      Inside(destination)
    }

    /** The destination's mount point lies inside the mounted source. */
    predicate Nested()
      requires BothAccepted()
    {
      |S()| == 1 && |D()| > 1 && D()[0] == S()[0]
    }

    function Rest(): Path
      requires BothAccepted() && Nested()
    {
      D()[1..]
    }

    /** The mounted source holds a link on the way to the destination's mount
        point or at it, or a file on the way. */
    predicate Hindered()
      requires BothAccepted()
    {
      Nested() && exists i :: 1 <= i <= |Rest()| && Hinders(content.tree, Rest(), i)
    }

    /** The names of the four mount points, in the order of the cleanup. */
    function Names(): seq<Path>
      requires BothAccepted()
    {
      [[PINNED_SOURCE], [PINNED_DESTINATION], S(), D()]
    }

    /** The state right after the workspace has been made. */
    function Start(): Image {
      before.(tree := before.tree[Root() := NEW_DIR])
    }
  }

  /** The workspace is made for its owner only, a mount point for anybody to read;
      below a mount neither is seen. */
  const NEW_DIR: Node := Dir(0x1C0, false, true)
  const POINT_DIR: Node := Dir(0x1ED, false, true)

  predicate Hinders(content: Tree, rest: Path, i: nat)
    requires i <= |rest|
  {
    rest[..i] in content && (content[rest[..i]].Link? || (i < |rest| && content[rest[..i]].File?))
  }

  /** What makes the cleanup skip: a name it does not accept, or a made mount
      point that is seen through a link above the workspace, or behind a link
      or file in the mounted source. */
  ghost predicate Skips(k: Setting, made: bool, mounted: bool) {
    !k.BothAccepted() || (made && (k.Linked() || (mounted && k.Hindered())))
  }

  // ---- What every state has in common ----

  /** Whatever happened, the old tree is still there, and so is the workspace. */
  ghost predicate Grown(k: Setting, i: Image) {
    && WellFormed(i.tree) && Within(k.before.tree, i.tree)
    && k.Root() in i.tree && i.tree[k.Root()].Dir?
    && k.before.mounts <= i.mounts
  }

  function Extra(k: Setting, i: Image): seq<Mounted>
    requires k.before.mounts <= i.mounts
  {
    i.mounts[|k.before.mounts|..]
  }

  /** No mount of the run covers the old tree, the workspace or `point`. */
  ghost predicate Apart(k: Setting, i: Image, point: Path)
    requires k.before.mounts <= i.mounts
  {
    forall m | m in Extra(k, i) ::
      m.point !in k.before.tree && !Upto(m.point, k.Root()) && !Above(m.point, point)
  }

  /** What hinders is still seen where the source was mounted. */
  ghost predicate StillHindered(k: Setting, i: Image)
    requires k.BothAccepted() && k.Nested()
  {
    forall n | 1 <= n <= |k.Rest()| && k.Rest()[..n] in k.content.tree && !k.content.tree[k.Rest()[..n]].Dir? ::
      Look(i.tree, k.Root() + k.D()[..n + 1]) == Some(k.content.tree[k.Rest()[..n]])
  }

  ghost predicate InMount(mounts: seq<Mounted>, x: Path) {
    exists m :: m in mounts && Above(m.point, x)
  }

  predicate IsName(k: Setting, p: Path)
    requires k.BothAccepted()
  {
    exists n :: n in k.Names() && p == k.Root() + n
  }

  /** No later mount lies at or above an earlier one. */
  predicate Ordered(mounts: seq<Mounted>) {
    forall a, b | 0 <= a < b < |mounts| :: !Upto(mounts[b].point, mounts[a].point)
  }

  /** What was added is the workspace, mount points directly in it, and what
      lies in mounts of the run. */
  ghost predicate NodesTidy(k: Setting, i: Image)
    requires k.BothAccepted() && k.before.mounts <= i.mounts
  {
    && (forall x | x in i.tree :: x in k.before.tree || Upto(k.Root(), x))
    && (forall x | x in i.tree && Above(k.Root(), x) ::
          (IsName(k, x) && Parent(x) == k.Root() && i.tree[x].Dir?) || InMount(Extra(k, i), x))
  }

  /** Each mount of the run covers an empty directory of a name of its own. */
  predicate MountsTidy(k: Setting, i: Image)
    requires k.BothAccepted() && k.before.mounts <= i.mounts
  {
    && Ordered(Extra(k, i))
    && forall m | m in Extra(k, i) ::
         IsName(k, m.point) && Above(k.Root(), m.point) && m.point in i.tree
         && m.hidden.Keys == {m.point} && m.hidden[m.point].Dir?
  }

  /** No link or file on the way to a mount point. */
  ghost predicate WaysTidy(k: Setting, i: Image)
    requires k.BothAccepted()
  {
    forall n | n in k.Names() :: Unlinked(i.tree, k.Root() + n)
  }

  ghost predicate Tidy(k: Setting, i: Image)
    requires k.BothAccepted() && k.before.mounts <= i.mounts
  {
    NodesTidy(k, i) && MountsTidy(k, i) && WaysTidy(k, i)
  }

  ghost predicate Stage(k: Setting, i: Image, made: bool, mounted: bool) {
    && k.Valid() && Grown(k, i) && k.BothAccepted()
    && (!made ==> i == k.Start() && !mounted)
    && (made ==> |k.S()| == 1 && k.Root() + k.S() in i.tree && i.tree[k.Root() + k.S()].Dir?)
    && (made ==> Apart(k, i, k.Root() + k.S()))
    && (mounted && k.Nested() ==> StillHindered(k, i))
    && (!k.Linked() && !(mounted && k.Hindered()) ==> Tidy(k, i))
  }

  /** While no call has failed, every directory made in the workspace is a
      mount point. */
  ghost predicate Live(k: Setting, i: Image)
    requires k.before.mounts <= i.mounts
  {
    forall x | x in i.tree && x != [] && Parent(x) == k.Root() :: IsPoint(Extra(k, i), x)
  }

  // ---- Resolution of workspace paths ----

  lemma ParentResolves(k: Setting, t: Tree)
    requires k.Valid() && Within(k.before.tree, t)
    ensures Resolve(t, k.parent, true) == At(k.place) && k.place in t && t[k.place].Dir?
  {
    WalkKeeps(k.before.tree, t, [], k.parent, true, MAX_LINKS, k.place);
  }

  lemma BelowParent(t: Tree, parent: Path, place: Path, name: Name, tail: Path, follow: bool)
    requires WellFormed(t) && Resolve(t, parent, true) == At(place) && place in t && t[place].Dir?
    requires Plain([name] + tail) && NoLinkAbove(t, place + [name] + tail)
    requires follow && place + [name] + tail in t ==> !t[place + [name] + tail].Link?
    ensures Resolve(t, parent + [name] + tail, follow) == LiteralSpot(t, place + [name] + tail)
  {
    var full := [name] + tail;
    assert parent + [name] + tail == parent + full && place + [name] + tail == place + full;
    ResolvesBelow(t, parent, full, follow, place);
  }

  /** A plain path into the workspace resolves literally below its real place. */
  lemma TempResolves(k: Setting, t: Tree, tail: Path, follow: bool)
    requires k.Valid() && WellFormed(t) && Within(k.before.tree, t)
    requires Plain(tail) && NoLinkAbove(t, k.Root() + tail)
    requires follow && k.Root() + tail in t ==> !t[k.Root() + tail].Link?
    ensures Resolve(t, k.Temp() + tail, follow) == LiteralSpot(t, k.Root() + tail)
  {
    ParentResolves(k, t);
    assert k.name == (k.parent + [k.name])[|k.parent|];
    BelowParent(t, k.parent, k.place, k.name, tail, follow);
  }

  lemma Pins()
    ensures Accepted(PINNED_SOURCE) && Inside(PINNED_SOURCE) == [PINNED_SOURCE]
    ensures Accepted(PINNED_DESTINATION) && Inside(PINNED_DESTINATION) == [PINNED_DESTINATION]
  {
    NameIsClean(PINNED_SOURCE);
    NameIsClean(PINNED_DESTINATION);
  }

  lemma NamesArePlain(k: Setting, n: Path)
    requires k.BothAccepted() && n in k.Names()
    ensures Plain(n)
  {
    InsideIsPlain(k.source);
    InsideIsPlain(k.destination);
  }

  // ---- When the check of a finished run fails ----

  lemma ShorterParentIsReal(k: Setting)
    requires k.Valid() && Upto(k.parent, k.place)
    ensures k.parent == k.place
  {
    var t := k.before.tree;
    AllAncestors(t);
    assert k.parent == k.place || Above(k.parent, k.place);
    assert forall q | Above(q, k.parent) :: Above(q, k.place);
    assert forall q | q in t && Above(q, k.parent) :: t[q].Dir?;
    assert Plain(k.parent) by { assert forall i | 0 <= i < |k.parent| :: k.parent[i] == k.Temp()[i]; }
    ResolveIsLiteral(t, k.parent, true);
    if k.parent != [] { assert Above(Parent(k.parent), k.parent); }
  }

  lemma ParentIsNotTheWorkspace(k: Setting)
    requires k.Valid()
    ensures k.parent != k.Root()
  {
    var t := k.before.tree;
    if Plain(k.Root()) {
      AllAncestors(t);
      assert Parent(k.Root()) == k.place;
      forall q | q in t && Above(q, k.Root()) ensures t[q].Dir? {
        PrefixOfParent(k.Root(), q);
        if q != k.place { assert Above(q, k.place); }
      }
      ResolveIsLiteral(t, k.Root(), true);
    } else {
      assert forall i | 0 <= i < |k.parent| :: k.parent[i] == k.Temp()[i];
    }
  }

  /** Seen through a link, nothing in the workspace resolves to a path that
      starts like the workspace's own. */
  lemma LinkedEscapes(k: Setting, s: Name)
    requires k.Valid() && k.Linked()
    ensures !Upto(k.Temp(), k.Root() + [s])
  {
    var all := k.Root() + [s];
    ParentIsNotTheWorkspace(k);
    if Upto(k.parent, k.place) {
      ShorterParentIsReal(k);
      assert false;
    }
    assert |k.parent| <= |k.place| ==> all[..|k.parent|] == k.place[..|k.parent|];
    assert |k.parent| == |k.place| + 1 ==> all[..|k.parent|] == k.Root();
    assert k.parent == k.Temp()[..|k.parent|];
  }

  /** A made mount point seen through a link above the workspace fails it. */
  lemma LinkedFails(k: Setting, i: Image, mounted: bool)
    requires Stage(k, i, true, mounted) && k.Linked()
    ensures !Safe(i.tree, k.Temp(), k.source)
  {
    var t, s := i.tree, k.S();
    InsideIsPlain(k.source);
    AllAncestors(t);
    assert s == [s[0]] && s[..1] == s;
    assert Parent(k.Root() + s) == k.Root();
    TempResolves(k, t, s, false);
    TempResolves(k, t, s, true);
    LinkedEscapes(k, s[0]);
    assert !Passes(t, k.Temp(), k.Temp() + s[..1]);
  }

  lemma NotLinked(k: Setting)
    requires k.Valid() && !k.Linked()
    ensures k.Temp() == k.Root() && Plain(k.Root())
  {
  }

  /** A link found on a workspace path fails its check. */
  lemma LinkFails(k: Setting, t: Tree, c: Path, n: nat)
    requires k.Valid() && WellFormed(t) && Within(k.before.tree, t) && Plain(c) && 1 <= n <= |c|
    requires k.Root() + c[..n] in t && t[k.Root() + c[..n]].Link?
    ensures !Passes(t, k.Temp(), k.Temp() + c[..n])
  {
    var p := k.Root() + c[..n];
    AllAncestors(t);
    assert Above(Parent(p), p);
    TempResolves(k, t, c[..n], false);
  }

  /** So does a file that is not the last component. */
  lemma FileFails(k: Setting, t: Tree, front: Path, name: Name)
    requires k.Valid() && WellFormed(t) && Within(k.before.tree, t) && Plain(front + [name])
    requires k.Root() + front in t && t[k.Root() + front].File?
    ensures !Passes(t, k.Temp(), k.Temp() + (front + [name]))
  {
    var p, tail := k.Root() + front, front + [name];
    BelowFile(t, p, name);
    assert k.Root() + tail == p + [name];
    TempResolves(k, t, tail, false);
    assert Resolve(t, k.Temp() + tail, false) == NotDirectory;
  }

  lemma BelowFile(t: Tree, p: Path, name: Name)
    requires WellFormed(t) && p in t && t[p].File?
    ensures NoLinkAbove(t, p + [name]) && FileAbove(t, p + [name])
  {
    var q := p + [name];
    AllAncestors(t);
    assert Parent(q) == p && Above(p, q);
    forall x | x in t && Above(x, q) ensures !t[x].Link? {
      PrefixOfParent(q, x);
      if x != p { assert Above(x, p); }
    }
  }

  lemma OneMore(c: Path, n: nat)
    requires Plain(c) && n < |c|
    ensures c[..n + 1] == c[..n] + [c[n]] && Plain(c[..n] + [c[n]])
  {
  }

  lemma FileFailsAt(k: Setting, t: Tree, c: Path, n: nat)
    requires k.Valid() && WellFormed(t) && Within(k.before.tree, t) && Plain(c) && 1 <= n < |c|
    requires k.Root() + c[..n] in t && t[k.Root() + c[..n]].File?
    ensures !Passes(t, k.Temp(), k.Temp() + c[..n + 1])
  {
    OneMore(c, n);
    FileFails(k, t, c[..n], c[n]);
  }

  lemma NodeFails(k: Setting, t: Tree, c: Path, n: nat)
    requires k.Valid() && WellFormed(t) && Within(k.before.tree, t) && Plain(c) && 1 <= n <= |c|
    requires k.Root() + c[..n] in t
    requires t[k.Root() + c[..n]].Link? || (n < |c| && t[k.Root() + c[..n]].File?)
    ensures !Passes(t, k.Temp(), k.Temp() + c[..n]) || (n < |c| && !Passes(t, k.Temp(), k.Temp() + c[..n + 1]))
  {
    if t[k.Root() + c[..n]].Link? {
      LinkFails(k, t, c, n);
    } else {
      FileFailsAt(k, t, c, n);
    }
  }

  /** What hinders, seen at its place, fails the check of the destination. */
  lemma HinderedFails(k: Setting, i: Image)
    requires Stage(k, i, true, true) && !k.Linked() && k.Hindered()
    ensures !Safe(i.tree, k.Temp(), k.destination)
  {
    var n :| 1 <= n <= |k.Rest()| && Hinders(k.content.tree, k.Rest(), n);
    assert Look(i.tree, k.Root() + k.D()[..n + 1]) == Some(k.content.tree[k.Rest()[..n]]);
    InsideIsPlain(k.destination);
    NodeFails(k, i.tree, k.D(), n + 1);
  }

  /** A way without links and files on it passes. */
  lemma UnlinkedIsSafe(t: Tree, root: Path, name: string)
    requires WellFormed(t) && Accepted(name) && Plain(root) && Unlinked(t, root + Inside(name))
    ensures Safe(t, root, name)
  {
    var c := Inside(name);
    InsideIsPlain(name);
    forall n | 1 <= n <= |c| ensures Passes(t, root, root + c[..n]) {
      var p := root + c[..n];
      assert (root + c)[..|root| + n] == root + c[..n];
      assert root == p[..|root|];
      assert p == root + c || Above(p, root + c);
      GuardedResolution(t, root + c, p, false);
      GuardedResolution(t, root + c, p, true);
    }
  }

  lemma TidyIsSafe(k: Setting, i: Image)
    requires k.Valid() && Grown(k, i) && k.BothAccepted() && !k.Linked() && Tidy(k, i)
    ensures Safe(i.tree, k.Temp(), k.source) && Safe(i.tree, k.Temp(), k.destination)
    ensures Safe(i.tree, k.Temp(), PINNED_SOURCE) && Safe(i.tree, k.Temp(), PINNED_DESTINATION)
  {
    Pins();
    NotLinked(k);
    var names := k.Names();
    assert names[0] in names && names[1] in names && names[2] in names && names[3] in names;
    UnlinkedIsSafe(i.tree, k.Temp(), k.source);
    UnlinkedIsSafe(i.tree, k.Temp(), k.destination);
    UnlinkedIsSafe(i.tree, k.Temp(), PINNED_SOURCE);
    UnlinkedIsSafe(i.tree, k.Temp(), PINNED_DESTINATION);
  }

  lemma StartGrows(k: Setting)
    requires k.Valid()
    ensures Grown(k, k.Start()) && Extra(k, k.Start()) == []
    ensures forall x | x in k.Start().tree :: !Above(k.Root(), x)
  {
    var t := k.before.tree;
    assert Parent(k.Root()) == k.place;
    forall x | x in t ensures !Above(k.Root(), x) {
      if Above(k.Root(), x) { AncestorsAreDirs(t, x, k.Root()); }
    }
  }

  /** In an empty workspace every accepted name passes, link or no link. */
  lemma EmptyIsSafe(k: Setting, name: string)
    requires k.Valid() && Accepted(name)
    ensures Safe(k.Start().tree, k.Temp(), name)
  {
    var t, c := k.Start().tree, Inside(name);
    StartGrows(k);
    InsideIsPlain(name);
    forall n | 1 <= n <= |c| ensures Passes(t, k.Temp(), k.Temp() + c[..n]) {
      MissingInStart(k, c[..n], false);
    }
  }

  /** Nothing is found in an empty workspace. */
  lemma MissingInStart(k: Setting, c: Path, follow: bool)
    requires k.Valid() && Plain(c) && c != []
    ensures var t := k.Start().tree;
      k.Root() + c !in t && Resolve(t, k.Temp() + c, follow) == if |c| == 1 then At(k.Root() + c) else NoEntry
  {
    var t, p := k.Start().tree, k.Root() + c;
    StartGrows(k);
    AllAncestors(t);
    assert Above(k.Root(), p) by { assert k.Root() == p[..|k.Root()|]; }
    forall x | x in t && Above(x, p) ensures t[x].Dir? {
      if |x| < |k.Root()| {
        assert x == p[..|x|] == k.Root()[..|x|];
        assert Above(x, k.Root());
      } else {
        PrefixesCompare(p, k.Root(), x);
        assert x == k.Root() || Above(k.Root(), x);
      }
    }
    TempResolves(k, t, c, follow);
    assert Parent(p) == k.Root() + c[..|c| - 1];
    if |c| > 1 { assert Above(k.Root(), Parent(p)) by { assert k.Root() == Parent(p)[..|k.Root()|]; } }
  }

  /** In any state of a run the four checks of the cleanup all pass exactly
      when nothing makes it skip. */
  lemma CheckIff(k: Setting, i: Image, made: bool, mounted: bool)
    requires Stage(k, i, made, mounted)
    ensures Safe(i.tree, k.Temp(), k.source) && Safe(i.tree, k.Temp(), k.destination)
            && Safe(i.tree, k.Temp(), PINNED_SOURCE) && Safe(i.tree, k.Temp(), PINNED_DESTINATION)
            <==> !Skips(k, made, mounted)
  {
    Pins();
    if !made {
      EmptyIsSafe(k, k.source);
      EmptyIsSafe(k, k.destination);
      EmptyIsSafe(k, PINNED_SOURCE);
      EmptyIsSafe(k, PINNED_DESTINATION);
    } else if k.Linked() {
      LinkedFails(k, i, mounted);
    } else if mounted && k.Hindered() {
      HinderedFails(k, i);
    } else {
      TidyIsSafe(k, i);
    }
  }

  // ---- The steps of a run ----

  function Added(i: Image, q: Path): Image {
    i.(tree := i.tree[q := POINT_DIR])
  }

  /** A place where a directory can be made. */
  predicate Vacant(t: Tree, q: Path) {
    q !in t && q != [] && Parent(q) in t && t[Parent(q)].Dir?
  }

  lemma NothingBelow(t: Tree, q: Path)
    requires WellFormed(t) && q !in t
    ensures forall x | x in t :: !Upto(q, x)
  {
    forall x | x in t ensures !Upto(q, x) {
      if Upto(q, x) && x != q { AncestorsAreDirs(t, x, q); }
    }
  }

  lemma AddedGrows(k: Setting, i: Image, q: Path)
    requires k.Valid() && Grown(k, i) && Vacant(i.tree, q)
    ensures Grown(k, Added(i, q))
    ensures q !in k.before.tree && !Upto(q, k.Root())
  {
    NothingBelow(i.tree, q);
  }

  lemma DirsAreUnlinked(t: Tree, root: Path, n: Path)
    requires WellFormed(t) && root in t && t[root].Dir?
    requires forall x | x in t && Above(root, x) && Upto(x, root + n) :: t[x].Dir?
    ensures Unlinked(t, root + n)
  {
    var p := root + n;
    AllAncestors(t);
    forall x | x in t && Upto(x, p) ensures t[x].Dir? {
      if |x| < |root| {
        assert x == p[..|x|] == root[..|x|];
        assert Above(x, root);
      } else {
        PrefixesCompare(p, root, x);
        assert x == root || Above(root, x);
      }
    }
    assert forall x | Above(x, p) :: Upto(x, p);
  }

  /** The first mount point. */
  lemma SourceAdded(k: Setting)
    requires k.Valid() && k.BothAccepted() && |k.S()| == 1
    ensures Vacant(k.Start().tree, k.Root() + k.S())
    ensures Stage(k, Added(k.Start(), k.Root() + k.S()), true, false)
  {
    var q := k.Root() + k.S();
    var i := k.Start();
    StartGrows(k);
    assert Parent(q) == k.Root() && Above(k.Root(), q);
    AddedGrows(k, i, q);
    var u := Added(i, q);
    assert Extra(k, u) == [];
    if !k.Linked() {
      assert k.S() in k.Names() by { assert k.Names()[2] == k.S(); }
      forall n | n in k.Names() ensures Unlinked(u.tree, k.Root() + n) {
        DirsAreUnlinked(u.tree, k.Root(), n);
      }
      assert forall x | x in u.tree && Above(k.Root(), x) :: x == q;
      assert Tidy(k, u);
    }
  }

  /** One more mount point, once the source's is made. */
  lemma PointAdded(k: Setting, i: Image, mounted: bool, q: Path)
    requires Stage(k, i, true, mounted) && Vacant(i.tree, q)
    requires !k.Linked() && !(mounted && k.Hindered()) ==> Live(k, i) && IsName(k, q) && Above(k.Root(), q)
    ensures Stage(k, Added(i, q), true, mounted)
    ensures q !in k.before.tree && !Upto(q, k.Root()) && !Upto(q, k.Root() + k.S())
  {
    AddedGrows(k, i, q);
    NothingBelow(i.tree, q);
    if !k.Linked() && !(mounted && k.Hindered()) {
      PointAddedTidy(k, i, q);
    }
  }

  lemma AddedNodes(k: Setting, i: Image, q: Path)
    requires k.BothAccepted() && k.before.mounts <= i.mounts && NodesTidy(k, i)
    requires IsName(k, q) && Above(k.Root(), q) && (Parent(q) == k.Root() || InMount(Extra(k, i), q))
    ensures NodesTidy(k, Added(i, q))
  {
    assert Extra(k, Added(i, q)) == Extra(k, i);
  }

  lemma AddedMounts(k: Setting, i: Image, q: Path)
    requires k.BothAccepted() && k.before.mounts <= i.mounts && MountsTidy(k, i)
    ensures MountsTidy(k, Added(i, q))
  {
    assert Extra(k, Added(i, q)) == Extra(k, i);
  }

  lemma AddedWays(k: Setting, i: Image, q: Path)
    requires k.BothAccepted() && WaysTidy(k, i)
    ensures WaysTidy(k, Added(i, q))
  {
    forall n | n in k.Names() ensures Unlinked(Added(i, q).tree, k.Root() + n) {
      assert Unlinked(i.tree, k.Root() + n);
    }
  }

  lemma PointAddedTidy(k: Setting, i: Image, q: Path)
    requires k.Valid() && Grown(k, i) && k.BothAccepted() && Tidy(k, i) && Live(k, i)
    requires Vacant(i.tree, q) && IsName(k, q) && Above(k.Root(), q)
    ensures Tidy(k, Added(i, q))
  {
    PrefixOfParent(q, k.Root());
    if Parent(q) != k.Root() {
      assert Above(k.Root(), Parent(q));
      ParentIsMounted(k, i, q);
    }
    AddedNodes(k, i, q);
    AddedMounts(k, i, q);
    AddedWays(k, i, q);
  }

  /** In a live, tidy state what lies deeper than the workspace's own mount
      points lies in a mount. */
  lemma ParentIsMounted(k: Setting, i: Image, q: Path)
    requires k.Valid() && Grown(k, i) && k.BothAccepted() && Tidy(k, i) && Live(k, i)
    requires q != [] && Parent(q) in i.tree && Above(k.Root(), Parent(q))
    ensures InMount(Extra(k, i), q)
  {
    var p := Parent(q);
    assert InMount(Extra(k, i), p) || Parent(p) == k.Root();
    if Parent(p) == k.Root() {
      assert p != [] && IsPoint(Extra(k, i), p);
    }
    var m :| m in Extra(k, i) && Upto(m.point, p);
    PrefixOfParent(q, m.point);
  }

  /** A directory just made, on which a file system can be mounted. */
  ghost predicate Ready(k: Setting, i: Image, q: Path)
    requires k.BothAccepted()
  {
    && q in i.tree && q != [] && i.tree[q].Dir? && (forall x | x in i.tree :: !Above(q, x))
    && q !in k.before.tree && !Upto(q, k.Root()) && !Above(q, k.Root() + k.S())
  }

  lemma CoveredLook(i: Image, q: Path, content: Volume)
    requires forall x | x in i.tree :: !Above(q, x)
    ensures forall x :: Look(Cover(i, q, content).tree, x) ==
                        if Upto(q, x) then Look(content.tree, x[|q|..]) else Look(i.tree, x)
  {
    forall x ensures Look(Cover(i, q, content).tree, x) ==
                     if Upto(q, x) then Look(content.tree, x[|q|..]) else Look(i.tree, x) {
      GraftLook(i.tree, q, content.tree, x);
    }
  }

  lemma CoveredGrows(k: Setting, i: Image, q: Path, content: Volume)
    requires k.Valid() && Grown(k, i) && k.BothAccepted() && Ready(k, i, q) && WellFormed(content.tree)
    ensures Grown(k, Cover(i, q, content))
    ensures Extra(k, Cover(i, q, content)) == Extra(k, i) + [Mounted(q, content.origin, Under(i.tree, q))]
  {
    var u := Cover(i, q, content);
    CoveredLook(i, q, content);
    GraftWellFormed(i.tree, q, content.tree);
    NothingBelow(k.before.tree, q);
    forall x | x in k.before.tree ensures x in u.tree && u.tree[x] == k.before.tree[x] {
      assert Look(u.tree, x) == Look(i.tree, x);
    }
    assert Look(u.tree, k.Root()) == Look(i.tree, k.Root());
  }

  lemma SourceCoverShows(k: Setting, i: Image, n: nat)
    requires k.BothAccepted() && k.Nested() && Ready(k, i, k.Root() + k.S()) && 1 <= n <= |k.Rest()|
    ensures Look(Cover(i, k.Root() + k.S(), k.content).tree, k.Root() + k.D()[..n + 1])
            == Look(k.content.tree, k.Rest()[..n])
  {
    var q, x := k.Root() + k.S(), k.Root() + k.D()[..n + 1];
    CoveredLook(i, q, k.content);
    assert k.D()[..n + 1] == k.S() + k.Rest()[..n];
    assert x == q + k.Rest()[..n] && x[|q|..] == k.Rest()[..n];
  }

  lemma SourceCoverHinders(k: Setting, i: Image)
    requires k.BothAccepted() && k.Nested() && Ready(k, i, k.Root() + k.S())
    ensures StillHindered(k, Cover(i, k.Root() + k.S(), k.content))
  {
    forall n | 1 <= n <= |k.Rest()|
      ensures Look(Cover(i, k.Root() + k.S(), k.content).tree, k.Root() + k.D()[..n + 1])
              == Look(k.content.tree, k.Rest()[..n])
    {
      SourceCoverShows(k, i, n);
    }
  }

  lemma CoveredStillHindered(k: Setting, i: Image, q: Path, content: Volume)
    requires k.Valid() && Grown(k, i) && k.BothAccepted() && k.Nested() && Ready(k, i, q) && StillHindered(k, i)
    ensures StillHindered(k, Cover(i, q, content))
  {
    CoveredLook(i, q, content);
    forall n | 1 <= n <= |k.Rest()| && k.Rest()[..n] in k.content.tree && !k.content.tree[k.Rest()[..n]].Dir?
      ensures Look(Cover(i, q, content).tree, k.Root() + k.D()[..n + 1]) == Some(k.content.tree[k.Rest()[..n]])
    {
      KeptByCover(i, q, content, k.Root() + k.D()[..n + 1]);
    }
  }

  /** A link or file is not covered by a mount on an empty directory. */
  lemma KeptByCover(i: Image, q: Path, content: Volume, x: Path)
    requires q in i.tree && i.tree[q].Dir? && (forall y | y in i.tree :: !Above(q, y))
    requires x in i.tree && !i.tree[x].Dir?
    ensures Look(Cover(i, q, content).tree, x) == Look(i.tree, x)
  {
    CoveredLook(i, q, content);
    assert !Upto(q, x) || q == x || Above(q, x);
  }

  /** Mounting on a directory just made; `first` is the source's mount. */
  lemma PointCovered(k: Setting, i: Image, mounted: bool, q: Path, content: Volume, first: bool)
    requires Stage(k, i, true, mounted) && Ready(k, i, q) && WellFormed(content.tree)
    requires first ==> !mounted && q == k.Root() + k.S() && content == k.content
    requires !k.Linked() && !((mounted || first) && k.Hindered()) ==>
               IsName(k, q) && Above(k.Root(), q) && !IsPoint(Extra(k, i), q)
               && (first || forall n | n in k.Names() :: !Above(q, k.Root() + n))
    ensures Stage(k, Cover(i, q, content), true, mounted || first)
  {
    var u := Cover(i, q, content);
    CoveredGrows(k, i, q, content);
    CoveredLook(i, q, content);
    if k.Nested() && first {
      SourceCoverHinders(k, i);
    } else if k.Nested() && mounted {
      CoveredStillHindered(k, i, q, content);
    }
    SourcePointStays(k, i, q, content);
    if !k.Linked() && !((mounted || first) && k.Hindered()) {
      NodesCovered(k, i, q, content);
      MountsCovered(k, i, q, content);
      WaysCovered(k, i, q, content, first);
    }
  }

  lemma SourcePointStays(k: Setting, i: Image, q: Path, content: Volume)
    requires k.Valid() && k.BothAccepted() && Ready(k, i, q) && WellFormed(content.tree)
    requires k.Root() + k.S() in i.tree && i.tree[k.Root() + k.S()].Dir?
    ensures var u := Cover(i, q, content).tree; k.Root() + k.S() in u && u[k.Root() + k.S()].Dir?
  {
    var s := k.Root() + k.S();
    CoveredLook(i, q, content);
    if Upto(q, s) {
      assert q == s && s[|q|..] == [];
      assert Look(Cover(i, q, content).tree, s) == Look(content.tree, []);
    } else {
      assert Look(Cover(i, q, content).tree, s) == Look(i.tree, s);
    }
  }

  lemma NodesCovered(k: Setting, i: Image, q: Path, content: Volume)
    requires k.Valid() && Grown(k, i) && k.BothAccepted() && NodesTidy(k, i)
    requires Ready(k, i, q) && WellFormed(content.tree)
    requires IsName(k, q) && Above(k.Root(), q)
    ensures Grown(k, Cover(i, q, content)) && NodesTidy(k, Cover(i, q, content))
  {
    var u := Cover(i, q, content);
    CoveredGrows(k, i, q, content);
    CoveredLook(i, q, content);
    var m := Mounted(q, content.origin, Under(i.tree, q));
    assert m in Extra(k, u);
    forall x | x in u.tree
      ensures x in k.before.tree || Upto(k.Root(), x)
      ensures Above(k.Root(), x) ==>
                (IsName(k, x) && Parent(x) == k.Root() && u.tree[x].Dir?) || InMount(Extra(k, u), x)
    {
      assert Look(u.tree, x).Some?;
      if Upto(q, x) && x != q {
        assert Above(q, x) && InMount(Extra(k, u), x);
        assert Upto(k.Root(), x) by { assert k.Root() == q[..|k.Root()|] == x[..|k.Root()|]; }
      } else if x == q {
        assert x[|q|..] == [];
        MoreMounts(k, i, u, x);
      } else {
        assert Look(i.tree, x) == Look(u.tree, x);
        MoreMounts(k, i, u, x);
      }
    }
  }

  lemma MoreMounts(k: Setting, i: Image, u: Image, x: Path)
    requires k.before.mounts <= i.mounts && k.before.mounts <= u.mounts && Extra(k, i) <= Extra(k, u)
    ensures InMount(Extra(k, i), x) ==> InMount(Extra(k, u), x)
  {
    if m :| m in Extra(k, i) && Above(m.point, x) {
      assert m in Extra(k, u);
    }
  }

  lemma UnderLeaf(t: Tree, q: Path)
    requires q in t && forall x | x in t :: !Above(q, x)
    ensures Under(t, q).Keys == {q} && Under(t, q)[q] == t[q]
  {
    forall x | x in t && Upto(q, x) ensures x == q { assert x == q || Above(q, x); }
  }

  lemma OneMoreMount(mounts: seq<Mounted>, m: Mounted)
    requires Ordered(mounts) && forall x | x in mounts :: !Upto(m.point, x.point)
    ensures Ordered(mounts + [m])
  {
  }

  lemma PointSpared(i: Image, q: Path, content: Volume, p: Path)
    requires p in i.tree && p != q && forall x | x in i.tree :: !Above(q, x)
    ensures p in Cover(i, q, content).tree && !Upto(q, p)
  {
    CoveredLook(i, q, content);
    assert !Upto(q, p) by { assert Upto(q, p) ==> q == p || Above(q, p); }
    assert Look(Cover(i, q, content).tree, p) == Look(i.tree, p);
  }

  lemma MountsCovered(k: Setting, i: Image, q: Path, content: Volume)
    requires k.BothAccepted() && k.before.mounts <= i.mounts && MountsTidy(k, i)
    requires Ready(k, i, q) && WellFormed(content.tree)
    requires IsName(k, q) && Above(k.Root(), q) && !IsPoint(Extra(k, i), q)
    requires Extra(k, Cover(i, q, content)) == Extra(k, i) + [Mounted(q, content.origin, Under(i.tree, q))]
    ensures MountsTidy(k, Cover(i, q, content))
  {
    var u, added := Cover(i, q, content), Mounted(q, content.origin, Under(i.tree, q));
    UnderLeaf(i.tree, q);
    GraftLook(i.tree, q, content.tree, q);
    assert q[|q|..] == [] && Look(u.tree, q) == Look(content.tree, []);
    forall m | m in Extra(k, i) ensures m.point in u.tree && !Upto(q, m.point) {
      PointSpared(i, q, content, m.point);
    }
    OneMoreMount(Extra(k, i), added);
    forall m | m in Extra(k, u) ensures m in Extra(k, i) || m == added {}
  }

  lemma WaysCovered(k: Setting, i: Image, q: Path, content: Volume, first: bool)
    requires k.Valid() && Grown(k, i) && k.BothAccepted() && WaysTidy(k, i)
    requires Ready(k, i, q) && WellFormed(content.tree)
    requires if first then |k.S()| == 1 && q == k.Root() + k.S() && content == k.content && !k.Hindered()
             else forall n | n in k.Names() :: !Above(q, k.Root() + n)
    ensures WaysTidy(k, Cover(i, q, content))
  {
    forall n | n in k.Names() ensures Unlinked(Cover(i, q, content).tree, k.Root() + n) {
      UnlinkedUnderCover(k, i, q, content, first, n);
    }
  }

  lemma UnlinkedUnderCover(k: Setting, i: Image, q: Path, content: Volume, first: bool, n: Path)
    requires k.Valid() && Grown(k, i) && k.BothAccepted() && Ready(k, i, q) && WellFormed(content.tree)
    requires n in k.Names() && Unlinked(i.tree, k.Root() + n)
    requires if first then |k.S()| == 1 && q == k.Root() + k.S() && content == k.content && !k.Hindered()
             else !Above(q, k.Root() + n)
    ensures Unlinked(Cover(i, q, content).tree, k.Root() + n)
  {
    var u, p := Cover(i, q, content).tree, k.Root() + n;
    CoveredLook(i, q, content);
    forall x | x in u && Upto(x, p) ensures (Above(x, p) ==> u[x].Dir?) && !u[x].Link? {
      assert x == p || Above(x, p);
      if Upto(q, x) {
        assert x == q || Above(q, x);
        if x == q {
          assert x[|q|..] == [];
        } else {
          assert Above(q, p) by { assert q == x[..|q|] == p[..|q|]; }
          NestedPrefix(k, q, x, n);
        }
      } else {
        assert Look(u, x) == Look(i.tree, x);
      }
    }
  }

  /** What lies below the source's mount point on the way to a mount point is
      part of the rest of the destination's name, and does not hinder. */
  lemma NestedPrefix(k: Setting, q: Path, x: Path, n: Path)
    requires k.BothAccepted() && |k.S()| == 1 && q == k.Root() + k.S() && !k.Hindered() && n in k.Names()
    requires Above(q, x) && Upto(x, k.Root() + n) && x[|q|..] in k.content.tree
    ensures !k.content.tree[x[|q|..]].Link? && (Above(x, k.Root() + n) ==> k.content.tree[x[|q|..]].Dir?)
  {
    var p := k.Root() + n;
    assert q == x[..|q|] && x == p[..|x|];
    assert |n| > 1;
    assert n == k.D();
    assert k.S()[0] == q[|k.Root()|] == p[|k.Root()|] == n[0];
    var j := |x| - |q|;
    assert x[|q|..] == k.Rest()[..j];
    assert !Hinders(k.content.tree, k.Rest(), j);
  }

  // ---- Changes inside the mounts ----

  /** A component of the destination's mount point. */
  predicate OnTheWay(k: Setting, x: Path)
    requires k.BothAccepted()
  {
    exists n :: 0 <= n <= |k.D()| && x == k.Root() + k.D()[..n]
  }

  predicate IsDirectory(t: Tree, x: Path) {
    x in t && t[x].Dir?
  }

  /** What the run may change while it opens, copies and reports: anything
      inside its mounts, except the way to the destination's mount point, where
      only the attributes of a directory that is a mount point may change. */
  predicate Stirred(k: Setting, i: Image, u: Tree)
    requires k.BothAccepted() && k.before.mounts <= i.mounts
  {
    && WellFormed(u)
    && forall x | x in u.Keys + i.tree.Keys ::
         || Look(u, x) == Look(i.tree, x)
         || (IsPoint(Extra(k, i), x) && IsDirectory(u, x) && IsDirectory(i.tree, x))
         || (!OnTheWay(k, x) && exists m :: m in Extra(k, i) && Above(m.point, x))
  }

  lemma StirredLook(k: Setting, i: Image, u: Tree, x: Path)
    requires k.BothAccepted() && k.before.mounts <= i.mounts && Stirred(k, i, u)
    ensures || Look(u, x) == Look(i.tree, x)
            || (IsPoint(Extra(k, i), x) && IsDirectory(u, x) && IsDirectory(i.tree, x))
            || (!OnTheWay(k, x) && InMount(Extra(k, i), x))
  {
  }

  lemma StirredStillHindered(k: Setting, i: Image, u: Tree)
    requires k.BothAccepted() && k.before.mounts <= i.mounts && Stirred(k, i, u)
    requires k.Nested() && StillHindered(k, i)
    ensures StillHindered(k, i.(tree := u))
  {
    forall n | 1 <= n <= |k.Rest()| && k.Rest()[..n] in k.content.tree && !k.content.tree[k.Rest()[..n]].Dir?
      ensures Look(u, k.Root() + k.D()[..n + 1]) == Some(k.content.tree[k.Rest()[..n]])
    {
      StirredLook(k, i, u, k.Root() + k.D()[..n + 1]);
      assert OnTheWay(k, k.Root() + k.D()[..n + 1]);
    }
  }

  lemma StirredStays(k: Setting, i: Image, mounted: bool, u: Tree)
    requires Stage(k, i, true, mounted) && Stirred(k, i, u)
    ensures Stage(k, i.(tree := u), true, mounted)
  {
    var j := i.(tree := u);
    forall x | x in k.before.tree ensures Look(u, x) == Look(i.tree, x) {
      StirredLook(k, i, u, x);
      if m :| m in Extra(k, i) && Above(m.point, x) { AncestorsAreDirs(k.before.tree, x, m.point); }
      if m :| m in Extra(k, i) && m.point == x { assert m.point !in k.before.tree; }
    }
    StirredLook(k, i, u, k.Root());
    StirredLook(k, i, u, k.Root() + k.S());
    assert forall m | m in Extra(k, i) :: Above(m.point, k.Root()) ==> Upto(m.point, k.Root());
    if mounted && k.Nested() {
      StirredStillHindered(k, i, u);
    }
    if !k.Linked() && !(mounted && k.Hindered()) {
      StirredNodes(k, i, u);
      StirredMounts(k, i, u);
      StirredWays(k, i, u);
    }
  }

  /** No change inside the mounts is on the way to a mount point. */
  lemma WayIsSpared(k: Setting, i: Image, u: Tree, n: Path, x: Path)
    requires k.BothAccepted() && |k.S()| == 1 && k.before.mounts <= i.mounts
    requires Stirred(k, i, u) && MountsTidy(k, i) && n in k.Names() && Upto(x, k.Root() + n)
    ensures Look(u, x) == Look(i.tree, x) || (IsDirectory(u, x) && IsDirectory(i.tree, x))
  {
    StirredLook(k, i, u, x);
    assert x == (k.Root() + n)[..|x|];
    if m :| m in Extra(k, i) && Above(m.point, x) {
      assert |k.Root()| < |m.point| < |x| && |n| > 1 && n == k.D();
      assert x == k.Root() + k.D()[..|x| - |k.Root()|];
    }
  }

  lemma InMountIsInside(k: Setting, mounts: seq<Mounted>, x: Path)
    requires (forall m | m in mounts :: Above(k.Root(), m.point)) && InMount(mounts, x)
    ensures Upto(k.Root(), x)
  {
    var m :| m in mounts && Above(m.point, x);
    assert m.point == x[..|m.point|] && k.Root() == m.point[..|k.Root()|];
  }

  lemma StirredNode(k: Setting, i: Image, u: Tree, x: Path)
    requires k.BothAccepted() && k.before.mounts <= i.mounts && NodesTidy(k, i)
    requires (forall m | m in Extra(k, i) :: Above(k.Root(), m.point))
    requires x in u
    requires || Look(u, x) == Look(i.tree, x) || (IsDirectory(u, x) && IsDirectory(i.tree, x))
             || InMount(Extra(k, i), x)
    ensures x in k.before.tree || Upto(k.Root(), x)
    ensures Above(k.Root(), x) ==>
              (IsName(k, x) && Parent(x) == k.Root() && u[x].Dir?) || InMount(Extra(k, i), x)
  {
    if InMount(Extra(k, i), x) {
      InMountIsInside(k, Extra(k, i), x);
    } else {
      assert x in i.tree && (i.tree[x].Dir? ==> u[x].Dir?);
    }
  }

  lemma StirredNodes(k: Setting, i: Image, u: Tree)
    requires k.BothAccepted() && k.before.mounts <= i.mounts && NodesTidy(k, i) && MountsTidy(k, i) && Stirred(k, i, u)
    ensures NodesTidy(k, i.(tree := u))
  {
    var j := i.(tree := u);
    forall x | x in j.tree
      ensures x in k.before.tree || Upto(k.Root(), x)
      ensures Above(k.Root(), x) ==>
                (IsName(k, x) && Parent(x) == k.Root() && j.tree[x].Dir?) || InMount(Extra(k, j), x)
    {
      StirredLook(k, i, u, x);
      StirredNode(k, i, u, x);
    }
  }

  lemma StirredMounts(k: Setting, i: Image, u: Tree)
    requires k.BothAccepted() && |k.S()| == 1 && k.before.mounts <= i.mounts && MountsTidy(k, i) && Stirred(k, i, u)
    ensures MountsTidy(k, i.(tree := u))
  {
    forall m | m in Extra(k, i) ensures m.point in u {
      var n :| n in k.Names() && m.point == k.Root() + n;
      WayIsSpared(k, i, u, n, m.point);
      assert Look(u, m.point).Some? || IsDirectory(u, m.point);
    }
  }

  lemma StirredWays(k: Setting, i: Image, u: Tree)
    requires k.BothAccepted() && |k.S()| == 1 && k.before.mounts <= i.mounts
    requires MountsTidy(k, i) && WaysTidy(k, i) && Stirred(k, i, u)
    ensures WaysTidy(k, i.(tree := u))
  {
    forall n | n in k.Names() ensures Unlinked(u, k.Root() + n) {
      assert Unlinked(i.tree, k.Root() + n);
      forall x | x in u && Upto(x, k.Root() + n)
        ensures Look(u, x) == Look(i.tree, x) || (IsDirectory(u, x) && IsDirectory(i.tree, x))
      {
        WayIsSpared(k, i, u, n, x);
      }
      assert forall x | Above(x, k.Root() + n) :: Upto(x, k.Root() + n);
    }
  }
}
