/** The native copier as the program runs it, one system call after another,
    refined to `Mirror.Route` on a healthy disk and framed on any disk. */
module Copier {
  import opened Tree
  import opened PathGuard
  import opened Mirror
  import D = Disk
  import Guards
  import opened Idempotence
  import opened Convergence
  import opened TwoPasses
  import opened Recovery
  import opened Accounting

  datatype Compared = Equal | SrcNotExist | DstNotExist | Differ | DstIsNewer | Incomparable

  // ---- Frames of the intermediate states ----

  ghost predicate FramedSince(t: Tree, seen: seq<Tree>, n: nat, c: Config, src: Source, e: Entry) {
    forall i | n <= i < |seen| :: Frame(t, seen[i], c, src, e)
  }

  /** A state that agrees at each path with a framed state or with the start,
      or differs as the frame allows, is framed. */
  lemma FrameStep(t: Tree, a: Tree, u: Tree, c: Config, src: Source, e: Entry)
    requires Frame(t, a, c, src, e) && WellFormed(u)
    requires forall q :: Look(u, q) == Look(a, q) || FramedAt(t, u, c, src, e, q)
    ensures Frame(t, u, c, src, e)
  {
    forall q ensures FramedAt(t, u, c, src, e, q) {
      if Look(u, q) == Look(a, q) { assert FramedAt(t, a, c, src, e, q); }
    }
  }

  lemma StartIsFramed(t: Tree, c: Config, src: Source, e: Entry)
    requires WellFormed(t)
    ensures Frame(t, t, c, src, e)
  {
  }

  lemma CutIsFramed(t: Tree, a: Tree, u: Tree, c: Config, src: Source, e: Entry)
    requires Frame(t, a, c, src, e) && e.path != [] && D.PartlyRemoved(a, u, Dst(c, e))
    requires OwnNode(c, src, e, Look(t, Dst(c, e)), None)
    requires !(e.kind.Directory? && Dst(c, e) in t && t[Dst(c, e)].Dir?)
    ensures Frame(t, u, c, src, e)
  {
    var p := Dst(c, e);
    DstParent(c, e);
    forall q | Look(u, q) != Look(a, q) ensures FramedAt(t, u, c, src, e, q) {
      assert Upto(p, q) && q !in u;
      assert q == p || Above(p, q);
    }
    FrameStep(t, a, u, c, src, e);
  }

  lemma MadeIsFramed(t: Tree, a: Tree, u: Tree, x: Path, c: Config, src: Source, e: Entry)
    requires RootReady(t, c) && ValidEntry(e) && Frame(t, a, c, src, e) && e.path != []
    requires x == Parent(Dst(c, e)) || (x == Dst(c, e) && e.kind.Directory?)
    requires D.PartlyMade(a, u, x, DirPerm(c))
    requires a == t || (Dst(c, e) in t && !t[Dst(c, e)].Dir? && a == RemoveTree(t, Dst(c, e)))
    ensures Frame(t, u, c, src, e)
  {
    var p := Dst(c, e);
    DstParent(c, e);
    forall q | Look(u, q) != Look(a, q) ensures FramedAt(t, u, c, src, e, q) {
      assert q !in a && Upto(q, x) && Look(u, q) == Some(NewDir(c));
      PrefixOfParent(p, q);
      if q != p {
        assert Above(q, p);
        assert q !in t by { assert !(p <= q); }
        MissingIsBelowRoot(t, c.root, p, q);
      }
    }
    FrameStep(t, a, u, c, src, e);
  }

  class Copier {
    const disk: D.Disk
    const cfg: Config
    const source: Source

    constructor (disk: D.Disk, cfg: Config, source: Source)
      ensures this.disk == disk && this.cfg == cfg && this.source == source
    {
      this.disk := disk;
      this.cfg := cfg;
      this.source := source;
    }

    ghost predicate Ready(e: Entry)
      reads disk`tree, disk`seen
    {
      disk.Valid() && ValidConfig(cfg) && ValidEntry(e) && RootReady(disk.tree, cfg)
    }

    /** The tree and every state since `n` lie in the frame of `e`. */
    ghost predicate Framed(t: Tree, n: nat, e: Entry)
      reads disk`tree, disk`seen
    {
      && disk.Valid() && n <= |disk.seen|
      && Frame(t, disk.tree, cfg, source, e)
      && FramedSince(t, disk.seen, n, cfg, source, e)
    }

    /** A disk whose calls fail does not matter to an entry that is reported as
        done: the tree is as if none had failed. */
    ghost predicate Achieves(t: Tree, s: Step) {
      t == s.tree && Done(s.out)
    }

    /** What the caller learns from the outcome: whether the disk was full, and
        whether it has given up itself. */
    ghost predicate Told(out: Outcome, full: nat, cancels: nat)
      reads disk`full, disk`cancels
    {
      && disk.full == full + (if out.NoSpace? then 1 else 0)
      && disk.cancels == cancels + (if out.Cancelled? then 1 else 0)
    }

    /** Nothing is left of a copy that failed but directories: its destination is
        as before or gone, and there is no scratch file. */
    ghost predicate Tidied(start: Tree, t: Tree, e: Entry) {
      && (Dst(cfg, e) in t ==> Look(t, Dst(cfg, e)) == Look(start, Dst(cfg, e)))
      && forall q | q in t && q !in start :: t[q].Dir?
    }

    /** As in `ready` or gone, except for one file: it goes too, and what was there
        to be copied over is all there is. */
    ghost predicate OnlyExtra(ready: Tree, t: Tree, x: Path) {
      forall q | q != x :: Look(t, q).None? || Look(t, q) == Look(ready, q)
    }

    lemma WithoutExtra(start: Tree, ready: Tree, t: Tree, x: Path, e: Entry)
      requires Tidied(start, ready, e) && OnlyExtra(ready, t, x)
      ensures Tidied(start, t - {x}, e)
    {
      forall q | q in t - {x} ensures q in ready && (t - {x})[q] == ready[q] {
        assert Look(t, q) == Look(ready, q);
      }
    }

    /** How a copy ends: it is done, or the disk was full and the destination is as
        before, or nothing is left of it unless a file could not be removed. */
    ghost predicate EndsTidily(start: Tree, e: Entry, out: Outcome, full: nat, cancels: nat, stuck: nat)
      reads disk`tree, disk`full, disk`cancels, disk`stuck
    {
      && Told(out, full, cancels) && disk.stuck >= stuck
      && (out.NoSpace? ==> Look(disk.tree, Dst(cfg, e)) == Look(start, Dst(cfg, e)))
      && (!Done(out) && !out.NoSpace? && disk.stuck == stuck ==> Tidied(start, disk.tree, e))
    }

    /** `os.RemoveAll` of the destination path. */
    method Clear(ghost start: Tree, ghost n: nat, e: Entry) returns (errno: D.Errno)
      requires Framed(start, n, e) && ValidEntry(e) && ValidConfig(cfg) && e.path != []
      requires NoLinkAbove(disk.tree, Dst(cfg, e)) && !FileAbove(disk.tree, Dst(cfg, e))
      requires OwnNode(cfg, source, e, Look(start, Dst(cfg, e)), None)
      requires !(e.kind.Directory? && Dst(cfg, e) in start && start[Dst(cfg, e)].Dir?)
      modifies disk`tree, disk`seen
      ensures old(disk.seen) <= disk.seen && Framed(start, n, e)
      ensures errno.Ok? ==> disk.tree == RemoveTree(old(disk.tree), Dst(cfg, e))
      ensures D.PartlyRemoved(old(disk.tree), disk.tree, Dst(cfg, e))
      ensures disk.healthy ==> errno.Ok?
    {
      var p := Dst(cfg, e);
      DstParent(cfg, e);
      ghost var a, before := disk.tree, disk.seen;
      errno := disk.RemoveAll(p);
      CutIsFramed(start, a, disk.tree, cfg, source, e);
      forall i | n <= i < |disk.seen| ensures Frame(start, disk.seen[i], cfg, source, e) {
        if i < |before| {
          assert disk.seen[i] == before[i];
        } else {
          CutIsFramed(start, a, disk.seen[i], cfg, source, e);
        }
      }
    }

    /** `os.MkdirAll` of the destination directory or its parent. */
    method MakeDirectories(ghost start: Tree, ghost n: nat, e: Entry, x: Path) returns (errno: D.Errno)
      requires Framed(start, n, e) && ValidEntry(e) && ValidConfig(cfg) && e.path != [] && RootReady(start, cfg)
      requires x == Parent(Dst(cfg, e)) || (x == Dst(cfg, e) && e.kind.Directory?)
      requires Unlinked(disk.tree, x)
      requires disk.tree == start
               || (Dst(cfg, e) in start && !start[Dst(cfg, e)].Dir? && disk.tree == RemoveTree(start, Dst(cfg, e)))
      modifies disk`tree, disk`seen
      ensures old(disk.seen) <= disk.seen && Framed(start, n, e)
      ensures D.PartlyMade(old(disk.tree), disk.tree, x, DirPerm(cfg))
      ensures errno.Ok? ==> disk.tree == MakeDirs(old(disk.tree), x, DirPerm(cfg))
      ensures disk.healthy && (x in old(disk.tree) ==> old(disk.tree)[x].Dir?) ==> errno.Ok?
    {
      ghost var a, before := disk.tree, disk.seen;
      errno := disk.MkdirAll(x, DirPerm(cfg));
      MadeIsFramed(start, a, disk.tree, x, cfg, source, e);
      forall i | n <= i < |disk.seen| ensures Frame(start, disk.seen[i], cfg, source, e) {
        if i < |before| {
          assert disk.seen[i] == before[i];
        } else {
          MadeIsFramed(start, a, disk.seen[i], x, cfg, source, e);
        }
      }
    }

    /** One more state, which is framed. */
    lemma Extended(start: Tree, n: nat, e: Entry, before: seq<Tree>)
      requires disk.Valid() && n <= |before| && FramedSince(start, before, n, cfg, source, e)
      requires disk.seen == before + [disk.tree] && Frame(start, disk.tree, cfg, source, e)
      ensures Framed(start, n, e)
    {
    }

    method ProcessDirectory(e: Entry) returns (out: Outcome)
      requires Ready(e) && e.kind.Directory? && Unlinked(disk.tree, Dst(cfg, e))
      modifies disk`tree, disk`seen
      ensures old(disk.seen) <= disk.seen && Framed(old(disk.tree), |old(disk.seen)|, e)
      ensures !out.Skipped? && !out.NoSpace? && !out.Cancelled?
      ensures disk.healthy || Done(out) ==> Step(disk.tree, out) == Route(old(disk.tree), cfg, source, e)
    {
      ghost var start, n := disk.tree, |disk.seen|;
      var p := Dst(cfg, e);
      StartIsFramed(start, cfg, source, e);
      PlainDst(e);
      var ok := Guards.EnsurePrivatePath(disk, Parent(p), true);
      if !ok { return Failed; }
      if p == cfg.root { return Processed; }
      BelowRoot(e);
      var info := disk.Lstat(p);
      match info {
        case Found(node) =>
          if node.Dir? {
            out := ChangeMode(start, n, e);
          } else {
            var errno := Clear(start, n, e);
            if !errno.Ok? { return Failed; }
            out := CreateDirectory(start, n, e);
          }
        case Fault(errno) =>
          if !errno.Noent? { return Failed; }
          D.MissingSubtree(start, p);
          out := CreateDirectory(start, n, e);
      }
    }

    /** The destination directory exists already. */
    method ChangeMode(ghost start: Tree, ghost n: nat, e: Entry) returns (out: Outcome)
      requires Framed(start, n, e) && RootReady(start, cfg) && ValidConfig(cfg) && ValidEntry(e)
      requires e.path != [] && e.kind.Directory? && Unlinked(start, Dst(cfg, e))
      requires disk.tree == start && Dst(cfg, e) in start && start[Dst(cfg, e)].Dir?
      modifies disk`tree, disk`seen
      ensures old(disk.seen) <= disk.seen && Framed(start, n, e)
      ensures !out.Skipped? && !out.NoSpace? && !out.Cancelled?
      ensures (disk.healthy || Done(out)) && Private(start, Parent(Dst(cfg, e)), true) ==>
                Step(disk.tree, out) == MakeDirectory(start, cfg, Dst(cfg, e))
    {
      var p := Dst(cfg, e);
      PlainDst(e);
      DstParent(cfg, e);
      var ok := Guards.EnsurePrivatePath(disk, p, true);
      if !ok { return Failed; }
      var info := disk.Lstat(p);
      if info.Fault? { return Failed; }
      if info.node.perm == DirPerm(cfg) { return Uptodate; }
      ghost var before := disk.seen;
      var errno := disk.Chmod(p, DirPerm(cfg));
      if !errno.Ok? { return Failed; }
      forall q | Look(disk.tree, q) != Look(start, q) ensures FramedAt(start, disk.tree, cfg, source, e, q) {
        assert q == p;
      }
      FrameStep(start, start, disk.tree, cfg, source, e);
      Extended(start, n, e, before);
      ok := Guards.EnsurePrivatePath(disk, p, false);
      return if ok then Processed else Failed;
    }

    /** Nothing is left at the destination path. */
    method CreateDirectory(ghost start: Tree, ghost n: nat, e: Entry) returns (out: Outcome)
      requires Framed(start, n, e) && RootReady(start, cfg) && ValidConfig(cfg) && ValidEntry(e)
      requires e.path != [] && e.kind.Directory? && Unlinked(start, Dst(cfg, e))
      requires !(Dst(cfg, e) in start && start[Dst(cfg, e)].Dir?)
      requires disk.tree == RemoveTree(start, Dst(cfg, e))
      modifies disk`tree, disk`seen
      ensures old(disk.seen) <= disk.seen && Framed(start, n, e)
      ensures !out.Skipped? && !out.NoSpace? && !out.Cancelled?
      ensures (disk.healthy || Done(out)) && Private(start, Parent(Dst(cfg, e)), true) ==>
                Step(disk.tree, out) == MakeDirectory(start, cfg, Dst(cfg, e))
    {
      var p := Dst(cfg, e);
      ghost var cleared := disk.tree;
      PlainDst(e);
      DstParent(cfg, e);
      if p !in start { D.MissingSubtree(start, p); }
      assert cleared == if p in start && !start[p].Dir? then RemoveTree(start, p) else start;
      var ok := Guards.EnsurePrivatePath(disk, p, true);
      if !ok { return Failed; }
      var errno := MakeDirectories(start, n, e, p);
      if !errno.Ok? { return Failed; }
      MadeDirectory(cleared, p);
      out := SettleDirectory(start, n, e);
    }

    /** Its mode once more, and the last check. */
    method SettleDirectory(ghost start: Tree, ghost n: nat, e: Entry) returns (out: Outcome)
      requires Framed(start, n, e) && ValidConfig(cfg) && ValidEntry(e)
      requires Look(disk.tree, Dst(cfg, e)) == Some(NewDir(cfg)) && Unlinked(disk.tree, Dst(cfg, e))
      modifies disk`tree, disk`seen
      ensures old(disk.seen) <= disk.seen && Framed(start, n, e)
      ensures disk.tree == old(disk.tree) == Chmodded(old(disk.tree), Dst(cfg, e), DirPerm(cfg))
      ensures out == Processed || out == Failed
      ensures out.Processed? ==> Private(disk.tree, Dst(cfg, e), false)
      ensures disk.healthy && Private(disk.tree, Dst(cfg, e), false) ==> out.Processed?
    {
      var p := Dst(cfg, e);
      ghost var made, before := disk.tree, disk.seen;
      PlainDst(e);
      SameLookSameTree(made, made[p := WithPerm(made[p], DirPerm(cfg))]);
      var errno := disk.Chmod(p, DirPerm(cfg));
      if !errno.Ok? { return Failed; }
      Extended(start, n, e, before);
      var ok := Guards.EnsurePrivatePath(disk, p, false);
      return if ok then Processed else Failed;
    }

    lemma MadeDirectory(t: Tree, p: Path)
      requires WellFormed(t) && Unlinked(t, p) && p !in t
      ensures var u := MakeDirs(t, p, DirPerm(cfg));
              WellFormed(u) && p in u && u[p] == NewDir(cfg) && Unlinked(u, p)
    {
      forall q | q in t && Upto(q, p) ensures t[q].Dir? { PrefixOfParent(p, q); }
      MakeDirsWellFormed(t, p, DirPerm(cfg));
      MakeDirsLook(t, p, DirPerm(cfg));
      var u := MakeDirs(t, p, DirPerm(cfg));
      assert Upto(p, p) && Look(u, p) == Some(NewDir(cfg));
      forall q | q in u && Above(q, p) ensures u[q].Dir? { AncestorsAreDirs(u, p, q); }
    }

    lemma BelowRoot(e: Entry)
      requires ValidEntry(e) && Dst(cfg, e) != cfg.root
      ensures e.path != [] && Dst(cfg, e) != [] && Above(Parent(Dst(cfg, e)), Dst(cfg, e))
    {
    }

    /** Called only when the destination is missing, so the parent cannot be
        anything but a directory and the removal branch is dead. */
    method MakeParentsExist(ghost start: Tree, ghost n: nat, e: Entry) returns (errno: D.Errno)
      requires Framed(start, n, e) && RootReady(start, cfg) && ValidConfig(cfg) && ValidEntry(e) && e.path != []
      requires disk.tree == start && Dst(cfg, e) !in start
      requires Unlinked(start, Parent(Dst(cfg, e))) && !FileAbove(start, Dst(cfg, e))
      modifies disk`tree, disk`seen
      ensures old(disk.seen) <= disk.seen && Framed(start, n, e)
      ensures errno.Ok? ==> disk.tree == WithParents(start, cfg, Dst(cfg, e))
      ensures Tidied(start, disk.tree, e) && Look(disk.tree, Dst(cfg, e)) == Look(start, Dst(cfg, e))
      ensures disk.healthy ==> errno.Ok?
    {
      var dir := Parent(Dst(cfg, e));
      PlainDst(e);
      DstParent(cfg, e);
      NothingOnTheWay(start, e);
      var info := disk.Lstat(dir);
      match info {
        case Found(node) =>
          if !node.Dir? {
            assert false;
          }
          return D.Ok;
        case Fault(why) =>
          if !why.Noent? { return why; }
          errno := MakeDirectories(start, n, e, dir);
          ParentsAreTidy(start, disk.tree, e);
      }
    }

    lemma ParentsAreTidy(start: Tree, t: Tree, e: Entry)
      requires ValidEntry(e) && e.path != [] && D.PartlyMade(start, t, Parent(Dst(cfg, e)), DirPerm(cfg))
      ensures Tidied(start, t, e) && Look(t, Dst(cfg, e)) == Look(start, Dst(cfg, e))
    {
      DstParent(cfg, e);
      assert !Upto(Dst(cfg, e), Parent(Dst(cfg, e)));
      forall q | q in t && q !in start ensures t[q].Dir? {
        assert Look(t, q) != Look(start, q);
      }
    }

    /** Above a missing destination that passed the guard only directories. */
    lemma NothingOnTheWay(t: Tree, e: Entry)
      requires RootReady(t, cfg) && ValidEntry(e) && e.path != []
      requires Unlinked(t, Parent(Dst(cfg, e))) && !FileAbove(t, Dst(cfg, e))
      ensures NoLinkAbove(t, Dst(cfg, e)) && NoLinkAbove(t, Parent(Dst(cfg, e))) && !FileAbove(t, Parent(Dst(cfg, e)))
      ensures Parent(Dst(cfg, e)) in t ==> t[Parent(Dst(cfg, e))].Dir?
    {
      var p := Dst(cfg, e);
      DstParent(cfg, e);
      D.NoLinkAboveParent(t, p);
    }

    method ProcessSymbolicLink(e: Entry) returns (out: Outcome)
      requires Ready(e) && e.kind.Symlink? && Unlinked(disk.tree, Parent(Dst(cfg, e)))
      modifies disk`tree, disk`seen
      ensures old(disk.seen) <= disk.seen && Framed(old(disk.tree), |old(disk.seen)|, e)
      ensures !out.Skipped? && !out.NoSpace? && !out.Cancelled?
      ensures disk.healthy ==> Step(disk.tree, out) == Route(old(disk.tree), cfg, source, e)
      ensures Done(out) ==> Achieves(disk.tree, Route(old(disk.tree), cfg, source, e))
    {
      ghost var start, n := disk.tree, |disk.seen|;
      var p := Dst(cfg, e);
      StartIsFramed(start, cfg, source, e);
      PlainDst(e);
      DstParent(cfg, e);
      D.NoLinkAboveParent(start, p);
      var info := disk.Lstat(p);
      match info {
        case Found(node) =>
          if node.Link? {
            var readErr, text := disk.Readlink(p);
            if readErr.Ok? && text == e.target { return Uptodate; }
          }
          var errno := Clear(start, n, e);
          if !errno.Ok? { return Failed; }
        case Fault(why) =>
          if !why.Noent? { return Failed; }
          var errno := MakeParentsExist(start, n, e);
          if !errno.Ok? { return Failed; }
      }
      ghost var ready := disk.tree;
      assert ready == if p in start then RemoveTree(start, p) else WithParents(start, cfg, p);
      out := PlaceLink(start, n, e);
      if p in start && start[p] == Link(e.target) { SameLinkAgain(start, p, e.target); }
    }

    /** Where reading a right link failed, it is made again as it was. */
    lemma SameLinkAgain(t: Tree, p: Path, text: string)
      requires WellFormed(t) && p in t && t[p] == Link(text)
      ensures RemoveTree(t, p)[p := Link(text)] == t
    {
      forall q | q in t && p <= q ensures q == p {
        if q != p { AncestorsAreDirs(t, q, p); }
      }
    }

    /** The destination is free and its parent made. */
    method PlaceLink(ghost start: Tree, ghost n: nat, e: Entry) returns (out: Outcome)
      requires Framed(start, n, e) && RootReady(start, cfg) && ValidConfig(cfg) && ValidEntry(e) && e.path != []
      requires e.kind.Symlink? && Unlinked(start, Parent(Dst(cfg, e))) && !FileAbove(start, Dst(cfg, e))
      requires disk.tree == if Dst(cfg, e) in start then RemoveTree(start, Dst(cfg, e))
                            else WithParents(start, cfg, Dst(cfg, e))
      modifies disk`tree, disk`seen
      ensures old(disk.seen) <= disk.seen && Framed(start, n, e)
      ensures !out.Skipped? && !out.NoSpace? && !out.Cancelled?
      ensures disk.healthy || Done(out) ==>
                Step(disk.tree, out) == if Private(old(disk.tree), Parent(Dst(cfg, e)), false)
                                        then Step(old(disk.tree)[Dst(cfg, e) := Link(e.target)], Processed)
                                        else Step(old(disk.tree), Failed)
    {
      var p := Dst(cfg, e);
      ghost var ready, before := disk.tree, disk.seen;
      PlainDst(e);
      ReadyForLeaf(start, ready, e);
      var ok := Guards.EnsurePrivatePath(disk, Parent(p), false);
      if !ok { return Failed; }
      var errno := disk.MakeSymlink(e.target, p);
      if !errno.Ok? { return Failed; }
      LinkIsFramed(start, ready, disk.tree, e);
      Extended(start, n, e, before);
      return Processed;
    }

    lemma LinkIsFramed(start: Tree, a: Tree, u: Tree, e: Entry)
      requires Frame(start, a, cfg, source, e) && WellFormed(u) && ValidEntry(e) && e.path != [] && e.kind.Symlink?
      requires u == a[Dst(cfg, e) := Link(e.target)]
      ensures Frame(start, u, cfg, source, e)
    {
      DstParent(cfg, e);
      forall q | Look(u, q) != Look(a, q) ensures FramedAt(start, u, cfg, source, e, q) {
        assert q == Dst(cfg, e);
      }
      FrameStep(start, a, u, cfg, source, e);
    }

    /** The parent directory exists and the destination does not. */
    lemma ReadyForLeaf(start: Tree, ready: Tree, e: Entry)
      requires RootReady(start, cfg) && ValidConfig(cfg) && ValidEntry(e) && e.path != []
      requires Unlinked(start, Parent(Dst(cfg, e))) && !FileAbove(start, Dst(cfg, e))
      requires var p := Dst(cfg, e); ready == if p in start then RemoveTree(start, p) else WithParents(start, cfg, p)
      ensures var p := Dst(cfg, e);
              && WellFormed(ready) && Parent(p) in ready && ready[Parent(p)].Dir? && p !in ready
              && Unlinked(ready, Parent(p))
    {
      var p := Dst(cfg, e);
      DstParent(cfg, e);
      if p in start {
        Replaced(start, cfg, p, Link(""));
        assert Look(RemoveTree(start, p), Parent(p)) == Look(start, Parent(p));
      } else {
        ParentsMade(start, cfg, e, Link(""));
      }
      forall q | q in ready && Above(q, Parent(p)) ensures ready[q].Dir? { AncestorsAreDirs(ready, Parent(p), q); }
    }

    /** The answer of `CompareFile` when both lookups work. */
    ghost function Comparison(t: Tree, e: Entry): Compared {
      var p := Dst(cfg, e);
      if e.path !in source then SrcNotExist
      else if p !in t then DstNotExist
      else if !source[e.path].File? then Incomparable
      else if !t[p].File? || |source[e.path].data| != |t[p].data| || source[e.path].mtime > t[p].mtime then Differ
      else if source[e.path].mtime < t[p].mtime then DstIsNewer
      else Equal
    }

    method CompareFile(e: Entry) returns (r: Compared)
      requires Ready(e) && e.path != [] && Unlinked(disk.tree, Dst(cfg, e))
      ensures r == Comparison(disk.tree, e) || (!disk.healthy && r.Incomparable?)
    {
      PlainDst(e);
      var failed := disk.Interrupted();
      if failed { return Incomparable; }
      if e.path !in source { return SrcNotExist; }
      assert !FileAbove(disk.tree, Dst(cfg, e));
      var info := disk.Lstat(Dst(cfg, e));
      if info.Fault? { return if info.errno.Noent? then DstNotExist else Incomparable; }
      var src, dst := source[e.path], info.node;
      if !src.File? { return Incomparable; }
      if !dst.File? { return Differ; }
      if |src.data| != |dst.data| { return Differ; }
      return if src.mtime > dst.mtime then Differ else if src.mtime < dst.mtime then DstIsNewer else Equal;
    }

    method CopyRegularFile(e: Entry) returns (out: Outcome)
      requires Ready(e) && e.kind.Regular? && Unlinked(disk.tree, Parent(Dst(cfg, e)))
      modifies disk
      ensures old(disk.seen) <= disk.seen && Framed(old(disk.tree), |old(disk.seen)|, e)
      ensures !out.Skipped?
      ensures EndsTidily(old(disk.tree), e, out, old(disk.full), old(disk.cancels), old(disk.stuck))
      ensures disk.healthy || Done(out) ==> Step(disk.tree, out) == Route(old(disk.tree), cfg, source, e)
      ensures out.Uptodate? ==> SameThere(old(disk.tree), cfg, source, e)
      ensures out.Processed? ==> NewerThere(old(disk.tree), cfg, source, e)
    {
      PlainDst(e);
      StartIsFramed(disk.tree, cfg, source, e);
      var ok := Guards.EnsureNoSymlinkPath(disk, Dst(cfg, e));
      if !ok { return Failed; }
      var differ := CompareFile(e);
      match differ {
        case Equal => return Uptodate;
        case SrcNotExist => return Disappeared;
        case DstIsNewer => return Processed;
        case Incomparable => return Failed;
        case Differ => out := CopyFile(e, true);
        case DstNotExist => out := CopyFile(e, false);
      }
    }

    method CopyFile(e: Entry, dstExists: bool) returns (out: Outcome)
      requires Ready(e) && e.kind.Regular?
      requires Unlinked(disk.tree, Dst(cfg, e)) && Unlinked(disk.tree, Parent(Dst(cfg, e)))
      requires dstExists == (Dst(cfg, e) in disk.tree) && e.path in source
      requires source[e.path].File? ==> !Keeps(source[e.path], Look(disk.tree, Dst(cfg, e)))
      modifies disk
      ensures old(disk.seen) <= disk.seen && Framed(old(disk.tree), |old(disk.seen)|, e)
      ensures !out.Skipped? && !out.Uptodate? && !out.Processed?
      ensures EndsTidily(old(disk.tree), e, out, old(disk.full), old(disk.cancels), old(disk.stuck))
      ensures disk.healthy || Done(out) ==> Step(disk.tree, out) == Route(old(disk.tree), cfg, source, e)
    {
      ghost var start, n := disk.tree, |disk.seen|;
      var p := Dst(cfg, e);
      StartIsFramed(start, cfg, source, e);
      PlainDst(e);
      DstParent(cfg, e);
      var failed := disk.Interrupted();
      var vanished: bool := *;
      if failed { return if vanished then Disappeared else Failed; }
      if !source[e.path].File? { return Failed; }
      assert !FileAbove(start, p);
      if !dstExists {
        var errno := MakeParentsExist(start, n, e);
        if !errno.Ok? { return Failed; }
      }
      out := CopyReady(start, n, e, dstExists);
    }

    /** The rest, once the parent directory is there. */
    method CopyReady(ghost start: Tree, ghost n: nat, e: Entry, dstExists: bool) returns (out: Outcome)
      requires Framed(start, n, e) && RootReady(start, cfg) && ValidConfig(cfg) && ValidEntry(e) && e.path != []
      requires e.kind.Regular? && e.path in source && source[e.path].File?
      requires Unlinked(start, Dst(cfg, e)) && Unlinked(start, Parent(Dst(cfg, e)))
      requires dstExists == (Dst(cfg, e) in start) && !Keeps(source[e.path], Look(start, Dst(cfg, e)))
      requires disk.tree == if Dst(cfg, e) in start then start else WithParents(start, cfg, Dst(cfg, e))
      modifies disk
      ensures old(disk.seen) <= disk.seen && Framed(start, n, e)
      ensures !out.Skipped? && !out.Uptodate? && !out.Processed?
      ensures EndsTidily(start, e, out, old(disk.full), old(disk.cancels), old(disk.stuck))
      ensures disk.healthy || Done(out) ==> Step(disk.tree, out) == CopyRegular(start, cfg, source, e, Dst(cfg, e))
    {
      var p := Dst(cfg, e);
      PlainDst(e);
      DstParent(cfg, e);
      ghost var ready := disk.tree;
      ReadyForCopy(start, ready, e);
      var ok := Guards.EnsurePrivatePath(disk, Parent(p), false);
      if !ok { return Failed; }
      var errno, tmp := MakeScratch(start, n, ready, e);
      if !errno.Ok? { return if errno.Nospc? then NoSpace else Failed; }
      out := Fill(start, n, ready, e, tmp, dstExists);
    }

    /** `os.CreateTemp` beside the destination. */
    method MakeScratch(ghost start: Tree, ghost n: nat, ghost ready: Tree, e: Entry) returns (errno: D.Errno, tmp: Path)
      requires Framed(start, n, e) && disk.tree == ready && start.Keys <= ready.Keys && ValidConfig(cfg)
      requires ValidEntry(e) && e.path != [] && e.kind.Regular? && Unlinked(ready, Parent(Dst(cfg, e)))
      requires Parent(Dst(cfg, e)) in ready && ready[Parent(Dst(cfg, e))].Dir?
      modifies disk`tree, disk`seen, disk`full
      ensures old(disk.seen) <= disk.seen && Framed(start, n, e)
      ensures disk.full == old(disk.full) + if errno.Nospc? then 1 else 0
      ensures disk.healthy ==> errno.Ok?
      ensures !errno.Ok? ==> disk.tree == ready
      ensures errno.Ok? ==>
                && Scratch(start, ready, tmp, e) && D.ScratchOnly(ready, disk.tree, tmp) && disk.tree[tmp].data == []
    {
      ghost var before := disk.seen;
      PlainDst(e);
      errno, tmp := disk.CreateTemp(Parent(Dst(cfg, e)), Dst(cfg, e));
      if errno.Ok? {
        assert Scratch(start, ready, tmp, e);
        ScratchIsFramed(start, ready, disk.tree, tmp, e);
        Extended(start, n, e, before);
      }
    }

    /** `tmp` is a scratch name of this entry, unused so far. */
    ghost predicate Scratch(start: Tree, ready: Tree, tmp: Path, e: Entry) {
      var p := Dst(cfg, e);
      && tmp !in start && tmp !in ready && tmp != [] && tmp != p && Plain(tmp)
      && IsTemp(tmp) && Parent(tmp) == Parent(p)
    }

    /** What publishing relies on and each of its steps keeps. */
    ghost predicate Publishing(start: Tree, ready: Tree, tmp: Path, e: Entry) {
      var p := Dst(cfg, e);
      && RootReady(start, cfg) && ValidConfig(cfg) && ValidEntry(e) && e.path != [] && e.kind.Regular?
      && e.path in source && source[e.path].File? && !Keeps(source[e.path], Look(start, p))
      && WellFormed(ready) && Frame(start, ready, cfg, source, e)
      && Parent(p) in ready && ready[Parent(p)].Dir? && Unlinked(ready, Parent(p)) && !(p in ready && ready[p].Link?)
      && Private(ready, Parent(p), false)
      && Scratch(start, ready, tmp, e)
      && Tidied(start, ready, e) && Look(ready, p) == Look(start, p)
    }

    lemma ReadyForCopy(start: Tree, ready: Tree, e: Entry)
      requires RootReady(start, cfg) && ValidConfig(cfg) && ValidEntry(e) && e.path != []
      requires Unlinked(start, Dst(cfg, e)) && Unlinked(start, Parent(Dst(cfg, e)))
      requires var p := Dst(cfg, e); ready == if p in start then start else WithParents(start, cfg, p)
      ensures var p := Dst(cfg, e);
              && WellFormed(ready) && Parent(p) in ready && ready[Parent(p)].Dir? && (p in start <==> p in ready)
              && Unlinked(ready, Parent(p)) && !(p in ready && ready[p].Link?) && start.Keys <= ready.Keys
              && Tidied(start, ready, e) && Look(ready, p) == Look(start, p)
    {
      var p := Dst(cfg, e);
      DstParent(cfg, e);
      if p in start {
        assert ready[Parent(p)].Dir?;
      } else {
        ReadyForLeaf(start, ready, e);
        ParentsMade(start, cfg, e, Link(""));
        forall q | q in start ensures q in ready {
          AllAncestors(start);
          assert Look(ready, q) == Look(start, q);
        }
        forall q | q in ready && q !in start ensures ready[q].Dir? {
          assert q != p && Look(ready, q) == Some(NewDir(cfg));
        }
      }
      forall q | q in ready && Above(q, Parent(p)) ensures ready[q].Dir? { AncestorsAreDirs(ready, Parent(p), q); }
    }

    lemma ScratchIsFramed(start: Tree, a: Tree, u: Tree, tmp: Path, e: Entry)
      requires Frame(start, a, cfg, source, e) && Scratch(start, start, tmp, e) && e.kind.Regular?
      requires D.ScratchOnly(a, u, tmp)
      ensures Frame(start, u, cfg, source, e)
    {
      forall q | Look(u, q) != Look(a, q) ensures FramedAt(start, u, cfg, source, e, q) {
        assert q == tmp;
      }
      FrameStep(start, a, u, cfg, source, e);
    }

    /** The bytes, as far as they get. */
    method FillScratch(ghost start: Tree, ghost n: nat, ghost ready: Tree, e: Entry, tmp: Path) returns (errno: D.Errno)
      requires Framed(start, n, e) && Publishing(start, ready, tmp, e) && D.ScratchOnly(ready, disk.tree, tmp)
      requires disk.tree[tmp].data == []
      modifies disk`tree, disk`seen, disk`full
      ensures disk.full == old(disk.full) + if errno.Nospc? then 1 else 0
      ensures old(disk.seen) <= disk.seen && Framed(start, n, e)
      ensures D.ScratchOnly(ready, disk.tree, tmp)
      ensures errno.Ok? ==> disk.tree[tmp].data == source[e.path].data
      ensures disk.healthy ==> errno.Ok?
    {
      ghost var a, before := disk.tree, disk.seen;
      errno := disk.CopyBytes(source[e.path].data, tmp);
      ScratchIsFramed(start, a, disk.tree, tmp, e);
      forall i | n <= i < |disk.seen| ensures Frame(start, disk.seen[i], cfg, source, e) {
        if i < |before| { assert disk.seen[i] == before[i]; } else { ScratchIsFramed(start, a, disk.seen[i], tmp, e); }
      }
    }

    /** Copies the bytes into the scratch file. */
    method Fill(ghost start: Tree, ghost n: nat, ghost ready: Tree, e: Entry, tmp: Path, dstExists: bool)
      returns (out: Outcome)
      requires Framed(start, n, e) && Publishing(start, ready, tmp, e) && D.ScratchOnly(ready, disk.tree, tmp)
      requires disk.tree[tmp].data == [] && dstExists == (Dst(cfg, e) in ready)
      modifies disk
      ensures old(disk.seen) <= disk.seen && Framed(start, n, e)
      ensures !out.Skipped? && !out.Uptodate? && !out.Processed?
      ensures EndsTidily(start, e, out, old(disk.full), old(disk.cancels), old(disk.stuck))
      ensures disk.healthy || out.Sent? ==>
                && out == Sent(|source[e.path].data|)
                && disk.tree == RemoveTree(ready, Dst(cfg, e))[Dst(cfg, e) := Copied(cfg, source[e.path], e)]
    {
      var errno := FillScratch(start, n, ready, e, tmp);
      if errno.Nospc? { return NoSpace; }
      if !errno.Ok? {
        Discard(start, n, ready, e, tmp);
        var vanished: bool := *;
        return if vanished then Disappeared else Failed;
      }
      var cancelled := disk.Cancelled();
      if cancelled {
        Discard(start, n, ready, e, tmp);
        return Cancelled;
      }
      out := Replace(start, n, ready, e, tmp, dstExists);
    }

    /** Frees the destination's path for the complete scratch file. */
    method Replace(ghost start: Tree, ghost n: nat, ghost ready: Tree, e: Entry, tmp: Path, dstExists: bool)
      returns (out: Outcome)
      requires Framed(start, n, e) && Publishing(start, ready, tmp, e) && D.ScratchOnly(ready, disk.tree, tmp)
      requires disk.tree[tmp].data == source[e.path].data && dstExists == (Dst(cfg, e) in ready)
      modifies disk
      ensures old(disk.seen) <= disk.seen && Framed(start, n, e)
      ensures !out.Skipped? && !out.Uptodate? && !out.Processed?
      ensures EndsTidily(start, e, out, old(disk.full), old(disk.cancels), old(disk.stuck))
      ensures disk.healthy || out.Sent? ==>
                && out == Sent(|source[e.path].data|)
                && disk.tree == RemoveTree(ready, Dst(cfg, e))[Dst(cfg, e) := Copied(cfg, source[e.path], e)]
    {
      var ok := FreePlace(start, n, ready, e, tmp, dstExists);
      if !ok { return Failed; }
      out := Publish(start, n, ready, e, tmp);
    }

    /** `os.RemoveAll` of an old destination; on failure the scratch file goes. */
    method FreePlace(ghost start: Tree, ghost n: nat, ghost ready: Tree, e: Entry, tmp: Path, dstExists: bool)
      returns (ok: bool)
      requires Framed(start, n, e) && Publishing(start, ready, tmp, e) && D.ScratchOnly(ready, disk.tree, tmp)
      requires disk.tree[tmp].data == source[e.path].data && dstExists == (Dst(cfg, e) in ready)
      modifies disk`tree, disk`seen, disk`stuck
      ensures old(disk.seen) <= disk.seen && Framed(start, n, e) && disk.stuck >= old(disk.stuck)
      ensures ok ==> Complete(ready, disk.tree, tmp, e)
      ensures !ok ==> !disk.healthy && (disk.stuck == old(disk.stuck) ==> Tidied(start, disk.tree, e))
    {
      ghost var filled := disk.tree;
      ScratchWay(ready, filled, tmp, e);
      if dstExists {
        var errno := Clear(start, n, e);
        if !errno.Ok? {
          PartlyFreed(ready, filled, disk.tree, tmp, e);
          Discard(start, n, ready, e, tmp);
          return false;
        }
      }
      Freed(ready, filled, disk.tree, tmp, e);
      return true;
    }

    lemma PartlyFreed(ready: Tree, filled: Tree, t: Tree, tmp: Path, e: Entry)
      requires D.ScratchOnly(ready, filled, tmp) && D.PartlyRemoved(filled, t, Dst(cfg, e))
      requires tmp != Dst(cfg, e) && tmp != [] && e.path != [] && Parent(tmp) == Parent(Dst(cfg, e))
      ensures tmp in t && t[tmp].File? && OnlyExtra(ready, t, tmp)
    {
      assert |tmp| == |Dst(cfg, e)|;
      assert !Upto(Dst(cfg, e), tmp);
      assert Look(t, tmp) == Look(filled, tmp);
    }

    lemma Freed(ready: Tree, filled: Tree, t: Tree, tmp: Path, e: Entry)
      requires WellFormed(ready) && ValidEntry(e) && e.path != [] && e.path in source && source[e.path].File?
      requires D.ScratchOnly(ready, filled, tmp) && filled[tmp].data == source[e.path].data && WellFormed(t)
      requires Parent(Dst(cfg, e)) in ready && ready[Parent(Dst(cfg, e))].Dir?
      requires tmp !in ready && tmp != Dst(cfg, e) && tmp != [] && Parent(tmp) == Parent(Dst(cfg, e))
      requires t == if Dst(cfg, e) in ready then RemoveTree(filled, Dst(cfg, e)) else filled
      ensures Complete(ready, t, tmp, e)
    {
      var p := Dst(cfg, e);
      DstParent(cfg, e);
      ScratchWay(ready, filled, tmp, e);
      assert |tmp| == |p|;
      assert !(p <= tmp) by { assert p <= tmp ==> tmp == p; }
      if p !in ready {
        assert Look(filled, p) == Look(ready, p);
        D.MissingSubtree(filled, p);
      }
      assert t == RemoveTree(filled, p);
      assert Look(t, Parent(p)) == Look(filled, Parent(p));
      forall q | q in t && Above(q, Parent(p)) ensures t[q].Dir? { AncestorsAreDirs(t, Parent(p), q); }
    }

    /** Gives up: the scratch file is removed if that still works. */
    method Discard(ghost start: Tree, ghost n: nat, ghost ready: Tree, e: Entry, tmp: Path)
      requires Framed(start, n, e) && Publishing(start, ready, tmp, e)
      requires tmp in disk.tree && disk.tree[tmp].File? && OnlyExtra(ready, disk.tree, tmp)
      modifies disk`tree, disk`seen, disk`stuck
      ensures disk.stuck >= old(disk.stuck)
      ensures disk.stuck == old(disk.stuck) ==> Tidied(start, disk.tree, e)
      ensures old(disk.seen) <= disk.seen && Framed(start, n, e)
    {
      var p := Dst(cfg, e);
      DstParent(cfg, e);
      PrefixOfParent(tmp, Parent(tmp));
      forall q | q in disk.tree && Above(q, Parent(tmp)) ensures disk.tree[q].Dir? {
        AncestorsAreDirs(disk.tree, Parent(tmp), q);
      }
      ghost var a, before := disk.tree, disk.seen;
      var errno := disk.Remove(tmp);
      if errno.Ok? {
        WithoutExtra(start, ready, a, tmp, e);
        forall q | Look(disk.tree, q) != Look(a, q) ensures FramedAt(start, disk.tree, cfg, source, e, q) {
          assert q == tmp;
        }
        FrameStep(start, a, disk.tree, cfg, source, e);
        Extended(start, n, e, before);
      }
    }

    lemma ScratchWay(ready: Tree, t: Tree, tmp: Path, e: Entry)
      requires WellFormed(ready) && D.ScratchOnly(ready, t, tmp) && ValidEntry(e) && e.path != []
      requires Parent(Dst(cfg, e)) in ready && ready[Parent(Dst(cfg, e))].Dir?
      requires tmp !in ready && Parent(tmp) == Parent(Dst(cfg, e)) && tmp != []
      ensures var p := Dst(cfg, e);
              && NoLinkAbove(t, p) && !FileAbove(t, p)
              && Parent(p) in t && t[Parent(p)].Dir? && Unlinked(t, Parent(p))
    {
      var p := Dst(cfg, e);
      DstParent(cfg, e);
      assert Look(t, Parent(p)) == Look(ready, Parent(p));
      forall q | q in t && Above(q, p) ensures t[q].Dir? {
        PrefixOfParent(p, q);
        if q != Parent(p) { AncestorsAreDirs(t, Parent(p), q); }
      }
      forall q | q in t && Above(q, Parent(p)) ensures t[q].Dir? { AncestorsAreDirs(t, Parent(p), q); }
    }

    /** The scratch file is complete and the destination path is free. */
    ghost predicate Complete(ready: Tree, t: Tree, tmp: Path, e: Entry)
      requires e.path in source && source[e.path].File?
    {
      var p := Dst(cfg, e);
      && WellFormed(t) && tmp in t && t[tmp].File? && t[tmp].data == source[e.path].data
      && p !in t && Parent(p) in t && t[Parent(p)].Dir? && Unlinked(t, Parent(p))
      && forall q | q != tmp :: Look(t, q) == if Upto(p, q) then None else Look(ready, q)
    }

    method Publish(ghost start: Tree, ghost n: nat, ghost ready: Tree, e: Entry, tmp: Path) returns (out: Outcome)
      requires Framed(start, n, e) && Publishing(start, ready, tmp, e) && Complete(ready, disk.tree, tmp, e)
      modifies disk
      ensures old(disk.seen) <= disk.seen && Framed(start, n, e)
      ensures !out.Skipped? && !out.Uptodate? && !out.Processed?
      ensures EndsTidily(start, e, out, old(disk.full), old(disk.cancels), old(disk.stuck))
      ensures disk.healthy || out.Sent? ==>
                && out == Sent(|source[e.path].data|)
                && disk.tree == RemoveTree(ready, Dst(cfg, e))[Dst(cfg, e) := Copied(cfg, source[e.path], e)]
    {
      var p := Dst(cfg, e);
      var src := source[e.path];
      PlainDst(e);
      DstParent(cfg, e);
      ghost var a, before := disk.tree, disk.seen;
      var errno := disk.Rename(tmp, p);
      if !errno.Ok? {
        Discard(start, n, ready, e, tmp);
        return Failed;
      }
      OwnFile(start, a, disk.tree, tmp, e);
      Extended(start, n, e, before);
      out := FinishFile(start, n, ready, e);
    }

    /** The file is in place; its mode and time are not. */
    ghost predicate Renamed(ready: Tree, t: Tree, e: Entry)
      requires e.path in source && source[e.path].File?
    {
      var p := Dst(cfg, e);
      && WellFormed(t) && p in t && t[p].File? && t[p].data == source[e.path].data
      && forall q | q != p :: Look(t, q) == if Upto(p, q) then None else Look(ready, q)
    }

    /** The destination is a file with the source's bytes. */
    ghost predicate OwnBytes(start: Tree, n: nat, e: Entry)
      reads disk`tree, disk`seen
    {
      && Framed(start, n, e) && ValidConfig(cfg) && ValidEntry(e) && e.path != [] && e.kind.Regular?
      && e.path in source && source[e.path].File? && !Keeps(source[e.path], Look(start, Dst(cfg, e)))
      && Dst(cfg, e) in disk.tree && disk.tree[Dst(cfg, e)].File? && disk.tree[Dst(cfg, e)].data == source[e.path].data
    }

    method SetMode(ghost start: Tree, ghost n: nat, e: Entry) returns (ok: bool)
      requires OwnBytes(start, n, e)
      modifies disk`tree, disk`seen
      ensures old(disk.seen) <= disk.seen
      ensures OwnBytes(start, n, e) && (!ok ==> disk.tree == old(disk.tree))
      ensures ok ==> var p, t := Dst(cfg, e), old(disk.tree); disk.tree == t[p := WithPerm(t[p], e.perm | cfg.fileMode)]
      ensures disk.healthy ==> ok
    {
      ghost var a, before := disk.tree, disk.seen;
      PlainDst(e);
      FileWay(a, e);
      var errno := disk.Chmod(Dst(cfg, e), e.perm | cfg.fileMode);
      if !errno.Ok? { return false; }
      OwnAttributes(start, a, disk.tree, e);
      Extended(start, n, e, before);
      return true;
    }

    method SetTime(ghost start: Tree, ghost n: nat, e: Entry) returns (ok: bool)
      requires OwnBytes(start, n, e)
      modifies disk`tree, disk`seen
      ensures old(disk.seen) <= disk.seen && OwnBytes(start, n, e) && (!ok ==> disk.tree == old(disk.tree))
      ensures ok ==> var p, t := Dst(cfg, e), old(disk.tree); disk.tree == t[p := t[p].(mtime := source[e.path].mtime)]
      ensures disk.healthy ==> ok
    {
      ghost var a, before := disk.tree, disk.seen;
      PlainDst(e);
      FileWay(a, e);
      var errno := disk.Chtimes(Dst(cfg, e), source[e.path].mtime);
      if !errno.Ok? { return false; }
      OwnAttributes(start, a, disk.tree, e);
      Extended(start, n, e, before);
      return true;
    }

    method FinishFile(ghost start: Tree, ghost n: nat, ghost ready: Tree, e: Entry) returns (out: Outcome)
      requires OwnBytes(start, n, e) && Renamed(ready, disk.tree, e) && Tidied(start, ready, e)
      modifies disk
      ensures old(disk.seen) <= disk.seen && Framed(start, n, e)
      ensures !out.Skipped? && !out.Uptodate? && !out.Processed?
      ensures EndsTidily(start, e, out, old(disk.full), old(disk.cancels), old(disk.stuck))
      ensures disk.healthy || out.Sent? ==>
                && out == Sent(|source[e.path].data|)
                && disk.tree == RemoveTree(ready, Dst(cfg, e))[Dst(cfg, e) := Copied(cfg, source[e.path], e)]
    {
      ghost var a := disk.tree;
      var ok := SetMode(start, n, e);
      if !ok {
        RemoveFile(start, n, ready, e);
        return Failed;
      }
      ghost var b := disk.tree;
      ok := SetTime(start, n, e);
      if !ok {
        RemoveFile(start, n, ready, e);
        return Failed;
      }
      FinalFile(ready, a, b, disk.tree, e);
      return Sent(|source[e.path].data|);
    }

    lemma Overwrite(t: Tree, p: Path, first: Node, second: Node)
      ensures t[p := first][p := second] == t[p := second]
    {
    }

    lemma FinalFile(ready: Tree, a: Tree, b: Tree, t: Tree, e: Entry)
      requires e.path in source && source[e.path].File? && Renamed(ready, a, e)
      requires b == a[Dst(cfg, e) := WithPerm(a[Dst(cfg, e)], e.perm | cfg.fileMode)]
      requires t == b[Dst(cfg, e) := b[Dst(cfg, e)].(mtime := source[e.path].mtime)]
      ensures t == RemoveTree(ready, Dst(cfg, e))[Dst(cfg, e) := Copied(cfg, source[e.path], e)]
    {
      var p := Dst(cfg, e);
      Overwrite(a, p, b[p], t[p]);
      assert t[p] == Copied(cfg, source[e.path], e);
      ReplacedBy(ready, a, Dst(cfg, e), Copied(cfg, source[e.path], e));
    }

    lemma ReplacedBy(ready: Tree, a: Tree, p: Path, node: Node)
      requires p in a && forall q | q != p :: Look(a, q) == if Upto(p, q) then None else Look(ready, q)
      ensures a[p := node] == RemoveTree(ready, p)[p := node]
    {
      var t, u := a[p := node], RemoveTree(ready, p)[p := node];
      forall q ensures Look(t, q) == Look(u, q) {
        if q != p { assert Look(t, q) == Look(a, q) && (Upto(p, q) <==> p <= q); }
      }
      SameLookSameTree(t, u);
    }

    lemma OwnAttributes(start: Tree, a: Tree, u: Tree, e: Entry)
      requires ValidEntry(e) && e.path != [] && e.kind.Regular? && e.path in source && source[e.path].File?
      requires !Keeps(source[e.path], Look(start, Dst(cfg, e)))
      requires Frame(start, a, cfg, source, e) && WellFormed(u)
      requires Dst(cfg, e) in u && u[Dst(cfg, e)].File? && u[Dst(cfg, e)].data == source[e.path].data
      requires forall q | q != Dst(cfg, e) :: Look(u, q) == Look(a, q)
      ensures Frame(start, u, cfg, source, e)
    {
      DstParent(cfg, e);
      forall q | Look(u, q) != Look(a, q) ensures FramedAt(start, u, cfg, source, e, q) {
        assert q == Dst(cfg, e);
      }
      FrameStep(start, a, u, cfg, source, e);
    }

    lemma FileWay(t: Tree, e: Entry)
      requires WellFormed(t) && Dst(cfg, e) in t && t[Dst(cfg, e)].File?
      ensures Unlinked(t, Dst(cfg, e))
    {
      AllAncestors(t);
    }

    /** After the rename only the destination path changes. */
    lemma OwnFile(start: Tree, a: Tree, u: Tree, tmp: Path, e: Entry)
      requires ValidEntry(e) && e.path != [] && e.kind.Regular? && e.path in source && source[e.path].File?
      requires !Keeps(source[e.path], Look(start, Dst(cfg, e)))
      requires Frame(start, a, cfg, source, e) && Scratch(start, start, tmp, e) && WellFormed(u)
      requires Dst(cfg, e) in u && u[Dst(cfg, e)].File? && u[Dst(cfg, e)].data == source[e.path].data
      requires tmp !in u && forall q | q != tmp && q != Dst(cfg, e) :: Look(u, q) == Look(a, q)
      ensures Frame(start, u, cfg, source, e)
    {
      DstParent(cfg, e);
      forall q | Look(u, q) != Look(a, q) ensures FramedAt(start, u, cfg, source, e, q) {
        assert q == tmp || q == Dst(cfg, e);
      }
      FrameStep(start, a, u, cfg, source, e);
    }

    /** Takes a published file away again after a failed chmod or chtimes. */
    method RemoveFile(ghost start: Tree, ghost n: nat, ghost ready: Tree, e: Entry)
      requires Framed(start, n, e) && ValidConfig(cfg) && ValidEntry(e) && e.path != [] && e.kind.Regular?
      requires e.path in source && source[e.path].File? && !Keeps(source[e.path], Look(start, Dst(cfg, e)))
      requires Dst(cfg, e) in disk.tree && disk.tree[Dst(cfg, e)].File?
      requires Tidied(start, ready, e) && OnlyExtra(ready, disk.tree, Dst(cfg, e))
      modifies disk`tree, disk`seen, disk`stuck
      ensures disk.stuck >= old(disk.stuck)
      ensures disk.stuck == old(disk.stuck) ==> Tidied(start, disk.tree, e)
      ensures old(disk.seen) <= disk.seen && Framed(start, n, e)
    {
      var p := Dst(cfg, e);
      PlainDst(e);
      DstParent(cfg, e);
      AllAncestors(disk.tree);
      ghost var a, before := disk.tree, disk.seen;
      var errno := disk.Remove(p);
      if errno.Ok? {
        WithoutExtra(start, ready, a, p, e);
        forall q | Look(disk.tree, q) != Look(a, q) ensures FramedAt(start, disk.tree, cfg, source, e, q) {
          assert q == p;
        }
        FrameStep(start, a, disk.tree, cfg, source, e);
        Extended(start, n, e, before);
      }
    }

    /** Every file was there before, or is the entry's own. */
    ghost predicate NothingStray(t: Tree, u: Tree, e: Entry) {
      forall q | q in u && u[q].File? :: q == Dst(cfg, e) || (q in t && t[q].File?)
    }

    lemma FrameHasNoStray(t: Tree, u: Tree, e: Entry)
      requires Frame(t, u, cfg, source, e) && (e.kind.Regular? ==> Tidied(t, u, e))
      ensures NothingStray(t, u, e)
    {
      forall q | q in u && u[q].File? ensures q == Dst(cfg, e) || (q in t && t[q].File?) {
        assert FramedAt(t, u, cfg, source, e, q);
        assert Look(u, q).Some?;
      }
    }

    lemma RouteHasNoStray(t: Tree, e: Entry)
      requires ValidConfig(cfg) && ValidEntry(e) && RootReady(t, cfg) && e.kind.Regular?
      ensures NothingStray(t, Route(t, cfg, source, e).tree, e)
    {
      RegularEdits(t, cfg, source, e);
      var u := Route(t, cfg, source, e).tree;
      forall q | q in u && u[q].File? ensures q == Dst(cfg, e) || (q in t && t[q].File?) {
        assert Look(u, q).Some?;
      }
    }

    /** `routeFileByTypes`. */
    method RouteFileByTypes(e: Entry) returns (out: Outcome)
      requires Ready(e)
      modifies disk
      ensures old(disk.seen) <= disk.seen && Framed(old(disk.tree), |old(disk.seen)|, e)
      ensures disk.healthy ==> Step(disk.tree, out) == Route(old(disk.tree), cfg, source, e)
      ensures Done(out) ==> Achieves(disk.tree, Route(old(disk.tree), cfg, source, e))
      ensures Told(out, old(disk.full), old(disk.cancels)) && disk.stuck >= old(disk.stuck)
      ensures e.kind.Regular? ==>
                EndsTidily(old(disk.tree), e, out, old(disk.full), old(disk.cancels), old(disk.stuck))
      ensures disk.full == old(disk.full) && disk.stuck == old(disk.stuck) ==>
                NothingStray(old(disk.tree), disk.tree, e)
      ensures RootReady(disk.tree, cfg)
      ensures (out.Skipped? <==> e.kind.Other?) && (out.Skipped? ==> disk.tree == old(disk.tree))
    {
      ghost var start := disk.tree;
      StartIsFramed(start, cfg, source, e);
      PlainDst(e);
      match e.kind {
        case Directory =>
          var ok := Guards.EnsureNoSymlinkPath(disk, Dst(cfg, e));
          if !ok { return Failed; }
          out := ProcessDirectory(e);
        case Symlink =>
          var ok := Guards.EnsureNoSymlinkPath(disk, Parent(Dst(cfg, e)));
          if !ok { return Failed; }
          out := ProcessSymbolicLink(e);
        case Regular =>
          var ok := Guards.EnsureNoSymlinkPath(disk, Parent(Dst(cfg, e)));
          if !ok { return Failed; }
          out := CopyRegularFile(e);
        case Other => out := Skipped;
      }
      FrameKeepsRoot(start, disk.tree, cfg, source, e);
      if e.kind.Regular? && Done(out) {
        RouteHasNoStray(start, e);
      } else if disk.full == old(disk.full) && disk.stuck == old(disk.stuck) {
        FrameHasNoStray(start, disk.tree, e);
      }
    }

    // ---- One pass over a chunk ----

    /** Every state since `n` is one a run of the plan from `t0` can be in. */
    ghost predicate Traced(t0: Tree, n: nat, plan: Plan)
      reads disk`tree, disk`seen
    {
      && Reached(t0, disk.tree, cfg, source, plan)
      && n <= |disk.seen|
      && forall i | n <= i < |disk.seen| :: Reached(t0, disk.seen[i], cfg, source, plan)
    }

    lemma TracedStep(t0: Tree, n: nat, plan: Plan, e: Entry, before: Tree, seen: seq<Tree>)
      requires ValidConfig(cfg) && RootReady(t0, cfg) && ValidPlan(plan) && NoTempNames(plan) && Drawn([e], plan)
      requires Reached(t0, before, cfg, source, plan) && n <= |seen|
      requires forall i | n <= i < |seen| :: Reached(t0, seen[i], cfg, source, plan)
      requires seen <= disk.seen && Framed(before, |seen|, e)
      ensures Traced(t0, n, plan)
    {
      ReachedStays(t0, before, disk.tree, cfg, source, plan, e);
      forall i | n <= i < |disk.seen| ensures Reached(t0, disk.seen[i], cfg, source, plan) {
        if i < |seen| {
          assert disk.seen[i] == seen[i];
        } else {
          ReachedStays(t0, before, disk.seen[i], cfg, source, plan, e);
        }
      }
    }

    /** `execute`: handles the entries in order until one stops the loop. */
    method ExecuteChunk(list: seq<Entry>, ghost t0: Tree, ghost n: nat, ghost plan: Plan)
      returns (res: Result, unrecoverable: bool, ghost outs: seq<Outcome>)
      requires disk.Valid() && ValidConfig(cfg) && RootReady(disk.tree, cfg) && RootReady(t0, cfg)
      requires ValidPlan(plan) && Drawn(list, plan)
      requires NoTempNames(plan) ==> Traced(t0, n, plan)
      modifies disk
      ensures fresh(res) && fresh(res.lastFilenames) && old(disk.seen) <= disk.seen
      ensures Underway(res, list, old(disk.tree), outs, t0, n, plan, old(disk.full), old(disk.cancels), old(disk.stuck))
      ensures LoopOutcomes(list, outs) && (unrecoverable <==> Last(outs).NoSpace?)
      ensures disk.healthy ==> NoSpace !in outs && Pass(disk.tree, outs) == Run(old(disk.tree), cfg, source, list)
      ensures NothingMissed(outs) ==> Carried(Run(old(disk.tree), cfg, source, list))
    {
      ghost var start := disk.tree;
      res := new Result(|list|);
      unrecoverable, outs := HandleAll(res, list, t0, n, plan);
      AllDone(start, list, outs);
    }

    /** The loop: on a healthy disk nothing stops it. */
    method HandleAll(res: Result, list: seq<Entry>, ghost t0: Tree, ghost n: nat, ghost plan: Plan)
      returns (unrecoverable: bool, ghost outs: seq<Outcome>)
      requires disk.Valid() && ValidConfig(cfg) && RootReady(disk.tree, cfg) && RootReady(t0, cfg)
      requires ValidPlan(plan) && Drawn(list, plan) && Agrees(res, list, [])
      requires NoTempNames(plan) ==> Traced(t0, n, plan)
      modifies disk, res, res.lastFilenames
      ensures old(disk.seen) <= disk.seen && res.lastFilenames == old(res.lastFilenames)
      ensures Underway(res, list, old(disk.tree), outs, t0, n, plan, old(disk.full), old(disk.cancels), old(disk.stuck))
      ensures LoopOutcomes(list, outs) && (unrecoverable <==> Last(outs).NoSpace?)
      ensures disk.healthy || NothingMissed(outs) ==> |outs| == |list| && !Last(outs).NoSpace?
    {
      ghost var start := disk.tree;
      outs := [];
      NothingDone(list, t0, n, plan);
      var k := 0;
      while k < |list|
        invariant k == |outs| <= |list| && Ongoing(list, outs)
        invariant old(disk.seen) <= disk.seen && res.lastFilenames == old(res.lastFilenames)
        invariant Underway(res, list, start, outs, t0, n, plan, old(disk.full), old(disk.cancels), old(disk.stuck))
      {
        var out, stop := Round(res, list, k, start, outs, t0, n, plan, old(disk.full), old(disk.cancels),
                               old(disk.stuck));
        outs := outs + [out];
        k := k + 1;
        if stop { return out.NoSpace?, outs; }
      }
      OngoingIsDone(list, outs);
      unrecoverable := false;
    }

    /** Where the loop stands after the outcomes so far. */
    ghost predicate Underway(res: Result, list: seq<Entry>, start: Tree, outs: seq<Outcome>,
                             t0: Tree, n: nat, plan: Plan, full: nat, cancels: nat, stuck: nat)
      reads disk, res, res.lastFilenames
    {
      OnDisk(list, start, outs, t0, n, plan, full, cancels, stuck) && Agrees(res, list, outs)
    }

    ghost predicate OnDisk(list: seq<Entry>, start: Tree, outs: seq<Outcome>, t0: Tree, n: nat, plan: Plan,
                           full: nat, cancels: nat, stuck: nat)
      reads disk
    {
      && disk.Valid() && RootReady(disk.tree, cfg) && (NoTempNames(plan) ==> Traced(t0, n, plan))
      && |outs| <= |list| && InStep(start, list, |outs|, outs)
      && Accounted(start, plan, full, cancels, stuck, Last(outs))
    }

    lemma NothingDone(list: seq<Entry>, t0: Tree, n: nat, plan: Plan)
      requires disk.Valid() && RootReady(disk.tree, cfg) && (NoTempNames(plan) ==> Traced(t0, n, plan))
      ensures OnDisk(list, disk.tree, [], t0, n, plan, disk.full, disk.cancels, disk.stuck) && Ongoing(list, [])
    {
      assert list[..0] == [];
    }

    lemma AllDone(start: Tree, list: seq<Entry>, outs: seq<Outcome>)
      requires |outs| <= |list| && InStep(start, list, |outs|, outs)
      requires LoopOutcomes(list, outs)
      requires disk.healthy || NothingMissed(outs) ==> |outs| == |list| && !Last(outs).NoSpace?
      ensures disk.healthy ==> NoSpace !in outs
      ensures disk.healthy ==> Pass(disk.tree, outs) == Run(start, cfg, source, list)
      ensures NothingMissed(outs) ==> Carried(Run(start, cfg, source, list))
    {
      assert list[..|list|] == list;
    }

    /** On a healthy disk, what is done so far is a run of the front. */
    ghost predicate InStep(start: Tree, list: seq<Entry>, k: nat, outs: seq<Outcome>)
      requires k <= |list|
      reads disk`tree
    {
      && (disk.healthy ==> Pass(disk.tree, outs) == Run(start, cfg, source, list[..k]))
      && (NothingMissed(outs) ==> Carried(Run(start, cfg, source, list[..k])))
    }

    /** Every entry so far is reported as done, or is none to be copied. */
    ghost predicate NothingMissed(outs: seq<Outcome>) {
      forall o | o in outs :: Done(o) || o.Skipped?
    }

    /** The tree is that of a pass without errors. */
    ghost predicate Carried(pass: Pass)
      reads disk`tree
    {
      disk.tree == pass.tree && ErrorFree(pass.outs)
    }

    /** Every file was there before, or is a listed one: no scratch file is left. */
    ghost predicate NoScratch(t: Tree, u: Tree, plan: Plan) {
      forall q | q in u && u[q].File? :: (q in t && t[q].File?) || Listed(cfg, plan, q)
    }

    lemma NoScratchStep(t: Tree, a: Tree, u: Tree, plan: Plan, e: Entry)
      requires NoScratch(t, a, plan) && NothingStray(a, u, e) && Drawn([e], plan)
      ensures NoScratch(t, u, plan)
    {
      assert e in [e];
      assert Dst(cfg, e)[|cfg.root|..] == e.path;
    }

    lemma NoScratchJoin(t: Tree, a: Tree, u: Tree, plan: Plan)
      requires NoScratch(t, a, plan) && NoScratch(a, u, plan)
      ensures NoScratch(t, u, plan)
    {
    }

    /** Where a chunk stands after the outcome `out`, counting from its start. */
    ghost predicate Accounted(start: Tree, plan: Plan, full: nat, cancels: nat, stuck: nat, out: Outcome)
      reads disk`tree, disk`full, disk`cancels, disk`stuck
    {
      && Told(out, full, cancels) && disk.stuck >= stuck
      && (disk.full == full && disk.stuck == stuck ==> NoScratch(start, disk.tree, plan))
    }

    /** One round of the loop: one entry handled and counted. */
    method Round(res: Result, list: seq<Entry>, k: nat, ghost start: Tree, ghost outs: seq<Outcome>,
                 ghost t0: Tree, ghost n: nat, ghost plan: Plan,
                 ghost full: nat, ghost cancels: nat, ghost stuck: nat)
      returns (out: Outcome, stop: bool)
      requires ValidConfig(cfg) && RootReady(t0, cfg) && k == |outs| < |list| && ValidPlan(plan) && Drawn(list, plan)
      requires Underway(res, list, start, outs, t0, n, plan, full, cancels, stuck) && Ongoing(list, outs)
      modifies disk, res, res.lastFilenames
      ensures old(disk.seen) <= disk.seen && res.lastFilenames == old(res.lastFilenames)
      ensures Underway(res, list, start, outs + [out], t0, n, plan, full, cancels, stuck)
      ensures stop <==> out.Cancelled? || out.NoSpace?
      ensures stop ==> !disk.healthy && LoopOutcomes(list, outs + [out]) && !NothingMissed(outs + [out])
      ensures !stop ==> Ongoing(list, outs + [out])
    {
      out := HandleNext(list, k, start, outs, t0, n, plan, full, cancels, stuck);
      stop := Book(res, list, outs, k, out);
      OngoingStep(list, outs, out);
      if stop { StopMisses(outs, out); }
    }

    lemma StopMisses(outs: seq<Outcome>, out: Outcome)
      requires out.Cancelled? || out.NoSpace?
      ensures !NothingMissed(outs + [out])
    {
      assert out in outs + [out];
    }

    method HandleNext(list: seq<Entry>, k: nat, ghost start: Tree, ghost outs: seq<Outcome>,
                      ghost t0: Tree, ghost n: nat, ghost plan: Plan,
                      ghost full: nat, ghost cancels: nat, ghost stuck: nat)
      returns (out: Outcome)
      requires ValidConfig(cfg) && RootReady(t0, cfg) && k == |outs| < |list| && ValidPlan(plan) && Drawn(list, plan)
      requires OnDisk(list, start, outs, t0, n, plan, full, cancels, stuck)
      requires !Last(outs).Cancelled? && !Last(outs).NoSpace?
      modifies disk
      ensures old(disk.seen) <= disk.seen && OnDisk(list, start, outs + [out], t0, n, plan, full, cancels, stuck)
      ensures disk.healthy ==> !out.Cancelled? && !out.NoSpace?
      ensures out.Skipped? <==> list[k].kind.Other?
    {
      ghost var before := disk.tree;
      assert list[k] in list;
      out := HandleEntry(list[k], t0, n, plan);
      if disk.full == full && disk.stuck == stuck { NoScratchStep(start, before, disk.tree, plan, list[k]); }
      StepTaken(start, list, k, before, outs, out);
      assert Last(outs + [out]) == out && |outs + [out]| == k + 1;
    }

    lemma StepTaken(start: Tree, list: seq<Entry>, k: nat, before: Tree, outs: seq<Outcome>, out: Outcome)
      requires k < |list| && (out.Skipped? <==> list[k].kind.Other?) && (out.Skipped? ==> disk.tree == before)
      requires disk.healthy ==> Pass(before, outs) == Run(start, cfg, source, list[..k])
      requires disk.healthy ==> Step(disk.tree, out) == Route(before, cfg, source, list[k])
      requires NothingMissed(outs) ==>
                 before == Run(start, cfg, source, list[..k]).tree && ErrorFree(Run(start, cfg, source, list[..k]).outs)
      requires Done(out) ==> Achieves(disk.tree, Route(before, cfg, source, list[k]))
      ensures InStep(start, list, k + 1, outs + [out])
    {
      if disk.healthy { RunStep(start, list, k, before, outs, Step(disk.tree, out)); }
      if NothingMissed(outs + [out]) { StepCarries(start, list, k, before, outs, out); }
    }

    lemma RunStep(start: Tree, list: seq<Entry>, k: nat, before: Tree, outs: seq<Outcome>, last: Step)
      requires k < |list| && Pass(before, outs) == Run(start, cfg, source, list[..k])
      requires last == Route(before, cfg, source, list[k])
      ensures Pass(last.tree, outs + [last.out]) == Run(start, cfg, source, list[..k + 1])
    {
      assert list[..k + 1][..k] == list[..k];
    }

    lemma StepCarries(start: Tree, list: seq<Entry>, k: nat, before: Tree, outs: seq<Outcome>, out: Outcome)
      requires k < |list| && NothingMissed(outs + [out]) && (out.Skipped? <==> list[k].kind.Other?)
      requires NothingMissed(outs) ==>
                 before == Run(start, cfg, source, list[..k]).tree && ErrorFree(Run(start, cfg, source, list[..k]).outs)
      requires Done(out) ==> Achieves(disk.tree, Route(before, cfg, source, list[k]))
      requires out.Skipped? ==> disk.tree == before
      ensures Carried(Run(start, cfg, source, list[..k + 1]))
    {
      assert forall o | o in outs :: o in outs + [out];
      assert out in outs + [out] && list[..k + 1] == list[..k] + [list[k]];
      RunLast(start, cfg, source, list[..k], list[k]);
    }

    method HandleEntry(e: Entry, ghost t0: Tree, ghost n: nat, ghost plan: Plan) returns (out: Outcome)
      requires Ready(e) && RootReady(t0, cfg) && ValidPlan(plan) && Drawn([e], plan)
      requires NoTempNames(plan) ==> Traced(t0, n, plan)
      modifies disk
      ensures disk.Valid() && RootReady(disk.tree, cfg) && old(disk.seen) <= disk.seen
      ensures NoTempNames(plan) ==> Traced(t0, n, plan)
      ensures disk.healthy ==> Step(disk.tree, out) == Route(old(disk.tree), cfg, source, e)
      ensures Done(out) ==> Achieves(disk.tree, Route(old(disk.tree), cfg, source, e))
      ensures Told(out, old(disk.full), old(disk.cancels)) && disk.stuck >= old(disk.stuck)
      ensures disk.full == old(disk.full) && disk.stuck == old(disk.stuck) ==>
                NothingStray(old(disk.tree), disk.tree, e)
      ensures disk.healthy ==> !out.Cancelled? && !out.NoSpace?
      ensures (out.Skipped? <==> e.kind.Other?) && (out.Skipped? ==> disk.tree == old(disk.tree))
    {
      ghost var before, seen := disk.tree, disk.seen;
      out := RouteFileByTypes(e);
      if NoTempNames(plan) { TracedStep(t0, n, plan, e, before, seen); }
      if disk.healthy { EditElsewhere(before, cfg, source, e); RouteOutcome(before, e); }
    }

    lemma RouteOutcome(t: Tree, e: Entry)
      ensures !Route(t, cfg, source, e).out.Cancelled? && !Route(t, cfg, source, e).out.NoSpace?
    {
    }

    // ---- Retries ----

    ghost predicate AtGoal(t0: Tree, t: Tree, plan: Plan) {
      forall q :: Look(t, q) == Expected(t0, cfg, source, plan, q)
    }

    lemma PassMovesOn(t0: Tree, before: Tree, pass: Pass, list: seq<Entry>, plan: Plan)
      requires ValidConfig(cfg) && RootReady(before, cfg) && ValidPlan(plan) && Covers(list, plan)
      requires pass == Run(before, cfg, source, list) && Between(t0, before, cfg, source, plan)
      ensures Between(t0, pass.tree, cfg, source, plan)
      ensures ErrorFree(pass.outs) ==> AtGoal(t0, pass.tree, plan)
      ensures Blocked(before, cfg, source, plan) ==> !ErrorFree(pass.outs) && Blocked(pass.tree, cfg, source, plan)
      ensures Finishable(before, cfg, source, plan) ==> Fit(pass.tree, cfg, source, plan)
      ensures SourceStable(source, plan) && Fit(before, cfg, source, plan) ==>
                ErrorFree(pass.outs) && Fit(pass.tree, cfg, source, plan)
    {
      RunFacts(before, cfg, source, plan, list);
      RunBetween(t0, before, cfg, source, plan, list);
      if ErrorFree(pass.outs) {
        ErrorFreeRunSettles(before, cfg, source, plan, list);
        SettledMeansExpected(t0, pass.tree, cfg, source, plan);
      }
      if Blocked(before, cfg, source, plan) { BlockedOutlivesRun(before, cfg, source, plan, list); }
      if Finishable(before, cfg, source, plan) {
        FirstPassReadies(before, cfg, source, plan, list);
        ReadiedIsFit(before, pass.tree, cfg, source, plan);
      }
      if SourceStable(source, plan) && Fit(before, cfg, source, plan) { FitRun(before, cfg, source, plan, list); }
    }

    lemma StartFacts(t0: Tree, plan: Plan)
      requires RootReady(t0, cfg)
      ensures Reached(t0, t0, cfg, source, plan) && Between(t0, t0, cfg, source, plan)
    {
    }

    /** `Execute`: repeats the whole chunk while it reports errors, up to
        `attempts` times, unless the disk is full or the caller gives up.
        A count of zero or less asks for a single pass without retries. The report
        is that of the last pass. */
    method Execute(list: seq<Entry>, attempts: int, ghost plan: Plan)
      returns (res: Result, failed: bool, ghost passes: seq<seq<Outcome>>)
      requires disk.Valid() && ValidConfig(cfg) && RootReady(disk.tree, cfg)
      requires ValidPlan(plan) && Covers(list, plan)
      modifies disk
      ensures disk.Valid() && RootReady(disk.tree, cfg) && old(disk.seen) <= disk.seen
      ensures NoTempNames(plan) ==>
                forall i | |old(disk.seen)| <= i < |disk.seen| ::
                  Reached(old(disk.tree), disk.seen[i], cfg, source, plan)
      ensures 1 <= |passes| <= Limit(attempts) && Repeated(list, passes)
      ensures Agrees(res, list, passes[|passes| - 1]) && (failed <==> Erred(passes[|passes| - 1]))
      ensures failed && |passes| < Limit(attempts) ==>
                Last(passes[|passes| - 1]).NoSpace? || disk.cancels > old(disk.cancels)
      ensures disk.full == old(disk.full) && disk.stuck == old(disk.stuck) ==>
                NoScratch(old(disk.tree), disk.tree, plan)
      ensures disk.healthy && failed ==> |passes| == Limit(attempts)
      ensures disk.healthy && !failed ==> AtGoal(old(disk.tree), disk.tree, plan)
      ensures disk.healthy && Blocked(old(disk.tree), cfg, source, plan) ==> failed
      ensures disk.healthy && attempts >= 2 && Finishable(old(disk.tree), cfg, source, plan) ==> !failed
    {
      StartFacts(disk.tree, plan);
      ghost var t0, n := disk.tree, |disk.seen|;
      var unrecoverable;
      res, failed, unrecoverable, passes := Retry(list, Limit(attempts), t0, n, plan);
    }

    /** `retry.Do`: passes until one has no errors, the disk is full, the caller
        gives up, or the limit is reached. */
    method Retry(list: seq<Entry>, limit: nat, ghost t0: Tree, ghost n: nat, ghost plan: Plan)
      returns (res: Result, failed: bool, unrecoverable: bool, ghost passes: seq<seq<Outcome>>)
      requires disk.Valid() && ValidConfig(cfg) && RootReady(disk.tree, cfg) && t0 == disk.tree && n == |disk.seen|
      requires ValidPlan(plan) && Covers(list, plan) && limit > 0
      requires Reached(t0, t0, cfg, source, plan) && Between(t0, t0, cfg, source, plan)
      modifies disk
      ensures old(disk.seen) <= disk.seen && 1 <= |passes| <= limit
      ensures Standing(list, t0, n, plan, res, failed, unrecoverable, passes)
      ensures Unspoiled(t0, plan, old(disk.full), old(disk.cancels), old(disk.stuck))
      ensures failed && |passes| < limit ==> unrecoverable || disk.cancels > old(disk.cancels)
      ensures disk.healthy && failed ==> |passes| == limit
    {
      res, unrecoverable, failed, passes := First(list, t0, n, plan);
      var tried := 1;
      var giveUp := false;
      while failed && tried < limit && !unrecoverable && !giveUp
        invariant |passes| == tried <= limit && old(disk.seen) <= disk.seen
        invariant Standing(list, t0, n, plan, res, failed, unrecoverable, passes)
        invariant Unspoiled(t0, plan, old(disk.full), old(disk.cancels), old(disk.stuck))
        invariant giveUp ==> !disk.healthy && disk.cancels > old(disk.cancels)
        decreases limit - tried, !giveUp
      {
        res, unrecoverable, failed, giveUp, passes :=
          Again(list, t0, n, plan, res, passes, old(disk.full), old(disk.cancels), old(disk.stuck));
        if !giveUp { tried := tried + 1; }
      }
    }

    method First(list: seq<Entry>, ghost t0: Tree, ghost n: nat, ghost plan: Plan)
      returns (res: Result, unrecoverable: bool, failed: bool, ghost passes: seq<seq<Outcome>>)
      requires disk.Valid() && ValidConfig(cfg) && RootReady(disk.tree, cfg) && t0 == disk.tree && n == |disk.seen|
      requires ValidPlan(plan) && Covers(list, plan)
      requires Reached(t0, t0, cfg, source, plan) && Between(t0, t0, cfg, source, plan)
      modifies disk
      ensures old(disk.seen) <= disk.seen && |passes| == 1
      ensures Standing(list, t0, n, plan, res, failed, unrecoverable, passes)
      ensures Unspoiled(t0, plan, old(disk.full), old(disk.cancels), old(disk.stuck))
    {
      ghost var outs;
      res, unrecoverable, failed, outs := OnePass(list, t0, t0, n, plan);
      passes := [outs];
    }

    /** Where the passes so far have led. */
    ghost predicate Standing(list: seq<Entry>, t0: Tree, n: nat, plan: Plan, res: Result, failed: bool,
                             unrecoverable: bool, passes: seq<seq<Outcome>>)
      reads disk`tree, disk`seen, res, res.lastFilenames
    {
      && disk.Valid() && RootReady(disk.tree, cfg) && (NoTempNames(plan) ==> Traced(t0, n, plan))
      && passes != [] && Repeated(list, passes)
      && var outs := passes[|passes| - 1];
      && Agrees(res, list, outs) && (failed <==> Erred(outs)) && (unrecoverable <==> Last(outs).NoSpace?)
      && (disk.healthy ==> OnCourse(t0, disk.tree, plan, failed) && !unrecoverable)
      && (disk.healthy && |passes| > 1 && Finishable(t0, cfg, source, plan) ==> !failed)
    }

    /** One more pass after one that failed, unless the caller gives up. */
    method Again(list: seq<Entry>, ghost t0: Tree, ghost n: nat, ghost plan: Plan, was: Result,
                 ghost passes: seq<seq<Outcome>>, ghost full: nat, ghost cancels: nat, ghost stuck: nat)
      returns (res: Result, unrecoverable: bool, failed: bool, giveUp: bool, ghost more: seq<seq<Outcome>>)
      requires ValidConfig(cfg) && RootReady(t0, cfg) && ValidPlan(plan) && Covers(list, plan)
      requires Standing(list, t0, n, plan, was, true, false, passes)
      requires Unspoiled(t0, plan, full, cancels, stuck)
      modifies disk
      ensures old(disk.seen) <= disk.seen
      ensures Standing(list, t0, n, plan, res, failed, unrecoverable, more)
      ensures Unspoiled(t0, plan, full, cancels, stuck)
      ensures giveUp ==> more == passes && !disk.healthy && disk.cancels > cancels
      ensures !giveUp ==> |more| == |passes| + 1
    {
      res, unrecoverable, failed, more := was, false, true, passes;
      giveUp := disk.Cancelled();
      if !giveUp {
        ghost var before, outs := disk.tree, [];
        res, unrecoverable, failed, outs := OnePass(list, t0, before, n, plan);
        more := passes + [outs];
        RepeatedMore(list, passes, outs);
        if disk.healthy { OneMorePass(t0, before, disk.tree, plan, failed); }
        if disk.full == full && disk.stuck == stuck { NoScratchJoin(t0, before, disk.tree, plan); }
      }
    }

    /** No scratch file so far, unless the disk was full or a file stuck. */
    ghost predicate Unspoiled(t0: Tree, plan: Plan, full: nat, cancels: nat, stuck: nat)
      reads disk`tree, disk`full, disk`cancels, disk`stuck
    {
      && disk.full >= full && disk.cancels >= cancels && disk.stuck >= stuck
      && (disk.full == full && disk.stuck == stuck ==> NoScratch(t0, disk.tree, plan))
    }

    /** What passes on a healthy disk have come to. */
    ghost predicate OnCourse(t0: Tree, t: Tree, plan: Plan, failed: bool) {
      && Between(t0, t, cfg, source, plan)
      && (!failed ==> AtGoal(t0, t, plan))
      && (Blocked(t0, cfg, source, plan) ==> failed && Blocked(t, cfg, source, plan))
      && (Finishable(t0, cfg, source, plan) ==> Fit(t, cfg, source, plan))
    }

    /** What one pass on a healthy disk does. */
    ghost predicate Moved(t0: Tree, before: Tree, t: Tree, plan: Plan, failed: bool) {
      && Between(t0, t, cfg, source, plan)
      && (!failed ==> AtGoal(t0, t, plan))
      && (Blocked(before, cfg, source, plan) ==> failed && Blocked(t, cfg, source, plan))
      && (Finishable(before, cfg, source, plan) ==> Fit(t, cfg, source, plan))
      && (SourceStable(source, plan) && Fit(before, cfg, source, plan) ==> !failed && Fit(t, cfg, source, plan))
    }

    lemma OneMorePass(t0: Tree, before: Tree, t: Tree, plan: Plan, failed: bool)
      requires OnCourse(t0, before, plan, true) && Moved(t0, before, t, plan, failed)
      ensures OnCourse(t0, t, plan, failed) && (Finishable(t0, cfg, source, plan) ==> !failed)
    {
    }

    lemma RepeatedMore(list: seq<Entry>, passes: seq<seq<Outcome>>, outs: seq<Outcome>)
      requires passes != [] && Repeated(list, passes) && LoopOutcomes(list, outs)
      requires Erred(passes[|passes| - 1]) && !Last(passes[|passes| - 1]).NoSpace?
      ensures Repeated(list, passes + [outs])
    {
    }

    method OnePass(list: seq<Entry>, ghost t0: Tree, ghost before: Tree, ghost n: nat, ghost plan: Plan)
      returns (res: Result, unrecoverable: bool, failed: bool, ghost outs: seq<Outcome>)
      requires disk.Valid() && ValidConfig(cfg) && RootReady(disk.tree, cfg) && RootReady(t0, cfg)
      requires ValidPlan(plan) && Covers(list, plan) && before == disk.tree
      requires NoTempNames(plan) ==> Traced(t0, n, plan)
      requires disk.healthy ==> Between(t0, before, cfg, source, plan)
      modifies disk
      ensures disk.Valid() && RootReady(disk.tree, cfg) && old(disk.seen) <= disk.seen
      ensures NoTempNames(plan) ==> Traced(t0, n, plan)
      ensures LoopOutcomes(list, outs) && Agrees(res, list, outs)
      ensures (failed <==> Erred(outs)) && (unrecoverable <==> Last(outs).NoSpace?)
      ensures Unspoiled(before, plan, old(disk.full), old(disk.cancels), old(disk.stuck))
      ensures disk.healthy ==> !unrecoverable && Moved(t0, before, disk.tree, plan, failed)
    {
      res, unrecoverable, outs := ExecuteChunk(list, t0, n, plan);
      failed := res.counts.errors > 0;
      ErrorsAreCounted(list, outs, |outs|);
      if disk.healthy {
        OnlyFailures(outs);
        PassMovesOn(t0, before, Pass(disk.tree, outs), list, plan);
      }
    }

    lemma OnlyFailures(outs: seq<Outcome>)
      requires NoSpace !in outs
      ensures Erred(outs) <==> !ErrorFree(outs)
    {
    }

    lemma PlainDst(e: Entry)
      requires ValidConfig(cfg) && ValidEntry(e)
      ensures Plain(Dst(cfg, e)) && Plain(Parent(Dst(cfg, e)))
    {
    }
  }

  /** A destination the program agrees to use: private as far as it exists,
      and a directory of a trusted owner if it does. */
  ghost predicate Preparable(t: Tree, c: Config) {
    && Private(t, c.root, true)
    && (c.root in t ==> t[c.root].Dir? && (c.root != [] ==> t[c.root].trusted))
  }

  function Made(t: Tree, c: Config): Tree {
    Chmodded(MakeDirs(t, c.root, DirPerm(c)), c.root, DirPerm(c))
  }

  lemma MadeRoot(t: Tree, c: Config)
    requires ValidConfig(c) && WellFormed(t) && Unlinked(t, c.root) && (c.root in t ==> t[c.root].Dir?)
    ensures var u := MakeDirs(t, c.root, DirPerm(c));
      && WellFormed(u) && c.root in u && u[c.root].Dir? && Unlinked(u, c.root)
      && WellFormed(Made(t, c)) && Unlinked(Made(t, c), c.root)
  {
    var u := MakeDirs(t, c.root, DirPerm(c));
    forall q | q in t && Upto(q, c.root) ensures t[q].Dir? {
      if q != c.root { assert Above(q, c.root); }
    }
    MakeDirsWellFormed(t, c.root, DirPerm(c));
    AllAncestors(u);
    assert forall q | q in Made(t, c) && q != c.root :: q in u && Made(t, c)[q] == u[q];
    assert Made(t, c).Keys == u.Keys;
  }

  /** What making the destination changes: missing directories down to it, and its
      permissions. */
  lemma MadeLook(t: Tree, c: Config, q: Path)
    requires ValidConfig(c) && WellFormed(t) && Unlinked(t, c.root) && (c.root in t ==> t[c.root].Dir?)
    ensures Look(Made(t, c), q) ==
            if q == c.root then Some(Dir(DirPerm(c), false, c.root in t ==> t[c.root].trusted))
            else if Upto(q, c.root) && q !in t then Some(NewDir(c)) else Look(t, q)
  {
    forall q | q in t && Upto(q, c.root) ensures t[q].Dir? {
      if q != c.root { assert Above(q, c.root); }
    }
    MakeDirsLook(t, c.root, DirPerm(c));
    var u := MakeDirs(t, c.root, DirPerm(c));
    assert Upto(c.root, c.root) && Look(u, c.root) == if c.root in t then Look(t, c.root) else Some(NewDir(c));
    if q != c.root { assert Look(Made(t, c), q) == Look(u, q); }
  }

  /** Making the destination keeps it private, and only that can be hindered. */
  lemma MadeIsPrivateIff(t: Tree, c: Config)
    requires ValidConfig(c) && WellFormed(t) && Private(t, c.root, true) && (c.root in t ==> t[c.root].Dir?)
    ensures Private(Made(t, c), c.root, false) <==> Preparable(t, c)
  {
    var u, v := MakeDirs(t, c.root, DirPerm(c)), Made(t, c);
    MadeRoot(t, c);
    ConfigDirs(c);
    MakeDirsLook(t, c.root, DirPerm(c));
    assert Upto(c.root, c.root);
    forall q | q in v && Upto(q, c.root) && q != [] && v[q].Dir? && (q != c.root || Preparable(t, c))
      ensures Secure(v[q])
    {
      if q != c.root {
        assert Look(v, q) == Look(u, q) == if q in t then Look(t, q) else Some(NewDir(c));
      } else {
        assert Look(u, q) == if q in t then Look(t, q) else Some(NewDir(c));
      }
    }
    if c.root in t {
      assert Look(u, c.root) == Look(t, c.root);
    }
  }

  /** `Runner.prepareDirectory`, destination half: on a healthy disk it succeeds
      exactly when the destination is one the program agrees to use; then the
      standing precondition of the copier holds. */
  method PrepareDirectory(disk: D.Disk, cfg: Config) returns (ok: bool)
    requires disk.Valid() && ValidConfig(cfg)
    modifies disk
    ensures disk.Valid()
    ensures ok ==> Preparable(old(disk.tree), cfg) && disk.tree == Made(old(disk.tree), cfg)
    ensures ok ==> forall q ::
              Look(disk.tree, q) ==
              if q == cfg.root then Some(Dir(DirPerm(cfg), false, q in old(disk.tree) ==> old(disk.tree)[q].trusted))
              else if Upto(q, cfg.root) && q !in old(disk.tree) then Some(NewDir(cfg)) else Look(old(disk.tree), q)
    ensures ok ==> RootReady(disk.tree, cfg)
    ensures disk.healthy && Preparable(old(disk.tree), cfg) ==> ok
  {
    ghost var start := disk.tree;
    ok := Guards.EnsurePrivatePath(disk, cfg.root, true);
    if !ok { return; }
    var errno := disk.MkdirAll(cfg.root, DirPerm(cfg));
    if !errno.Ok? { return false; }
    MadeRoot(start, cfg);
    errno := disk.Chmod(cfg.root, DirPerm(cfg));
    if !errno.Ok? { return false; }
    MadeIsPrivateIff(start, cfg);
    ok := Guards.EnsurePrivatePath(disk, cfg.root, false);
    if ok {
      PrivateIsReady(start, cfg);
      forall q ensures Look(disk.tree, q) ==
                       if q == cfg.root then Some(Dir(DirPerm(cfg), false, q in start ==> start[q].trusted))
                       else if Upto(q, cfg.root) && q !in start then Some(NewDir(cfg)) else Look(start, q) {
        MadeLook(start, cfg, q);
      }
    }
  }

  lemma PrivateIsReady(t: Tree, c: Config)
    requires ValidConfig(c) && WellFormed(t) && Unlinked(t, c.root) && (c.root in t ==> t[c.root].Dir?)
    requires Private(Made(t, c), c.root, false)
    ensures RootReady(Made(t, c), c)
  {
    var v := Made(t, c);
    MadeRoot(t, c);
    ConfigDirs(c);
    assert v[c.root].Dir? && v[c.root].perm == DirPerm(c);
    forall q | q in v && q != [] && Upto(q, c.root) ensures v[q].Dir? && Secure(v[q]) {
      if q != c.root { assert Above(q, c.root); }
    }
    assert Upto(c.root, c.root);
  }

  /** The source half; a directory gets a slash, which starts its scan inside. */
  method PrepareSource(disk: D.Disk, path: Path) returns (ok: bool, slash: bool)
    requires disk.Valid() && Plain(path)
    ensures ok ==> Unlinked(disk.tree, path) && path in disk.tree && (slash <==> disk.tree[path].Dir?)
    ensures disk.healthy && Unlinked(disk.tree, path) && path in disk.tree ==> ok
  {
    slash := false;
    ok := Guards.EnsureNoSymlinkPath(disk, path);
    if !ok { return; }
    GuardedResolution(disk.tree, path, path, true);
    var info := disk.Stat(path);
    return info.Found?, info.Found? && info.node.Dir?;
  }
}
