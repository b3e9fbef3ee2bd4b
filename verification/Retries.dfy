/** Workers that copy their chunks side by side in one tree, each repeating its
    own chunk while it reports errors. */
module Retries {
  import opened Tree
  import opened PathGuard
  import opened Mirror
  import opened Idempotence
  import opened Convergence
  import opened Sequences
  import opened TwoPasses

  datatype Job = Job(config: Config, source: Source, chunks: seq<seq<Entry>>, attempts: int)

  /** One chunk under way: entries handled in this pass, passes before it, and
      whether one of the handled entries failed. */
  datatype Copy = Copy(pos: nat, passes: nat, failed: bool, ended: bool)

  datatype State = State(tree: Tree, copies: seq<Copy>)

  function Init(k: Job, t: Tree): State {
    State(t, seq(|k.chunks|, _ => Copy(0, 0, false, false)))
  }

  predicate Moves(k: Job, s: State, i: nat) {
    i < |s.copies| && |s.copies| == |k.chunks| && !s.copies[i].ended && s.copies[i].pos <= |k.chunks[i]|
  }

  /** Worker `i` handles its next entry, or ends a pass: it starts over after an
      error while attempts are left. */
  ghost function Step(k: Job, s: State, i: nat): State
    requires Moves(k, s, i)
  {
    var chunk, w := k.chunks[i], s.copies[i];
    if w.pos < |chunk| then
      var r := Route(s.tree, k.config, k.source, chunk[w.pos]);
      State(r.tree, s.copies[i := w.(pos := w.pos + 1, failed := w.failed || r.out.Failed?)])
    else if w.failed && w.passes + 1 < k.attempts then
      s.(copies := s.copies[i := Copy(0, w.passes + 1, false, false)])
    else
      s.(copies := s.copies[i := w.(ended := true)])
  }

  ghost predicate Follows(k: Job, s: State, u: State) {
    exists i: nat :: Moves(k, s, i) && u == Step(k, s, i)
  }

  ghost predicate Schedule(k: Job, t: Tree, trace: seq<State>) {
    && trace != [] && trace[0] == Init(k, t)
    && forall n | 0 <= n < |trace| - 1 :: Follows(k, trace[n], trace[n + 1])
  }

  lemma StepAt(k: Job, t: Tree, trace: seq<State>, n: nat)
    requires Schedule(k, t, trace) && 0 < n < |trace|
    ensures Follows(k, trace[n - 1], trace[n])
  {
    var m := n - 1;
    assert Follows(k, trace[m], trace[m + 1]);
  }

  predicate Ended(s: State) {
    forall i | 0 <= i < |s.copies| :: s.copies[i].ended
  }

  // ---- How often a chunk is tried ----

  predicate Paced(limit: nat, chunk: seq<Entry>, w: Copy) {
    && w.pos <= |chunk| && w.passes < limit
    && (w.ended ==> w.pos == |chunk| && (w.failed ==> w.passes + 1 == limit))
  }

  /** No chunk gets more passes than attempts are configured, each pass goes over
      the whole chunk, and none ends with an error while attempts are left. */
  lemma {:induction false} AttemptsAreUsedUp(k: Job, t: Tree, trace: seq<State>, n: nat)
    requires Schedule(k, t, trace) && n < |trace|
    ensures |trace[n].copies| == |k.chunks|
    ensures forall i | 0 <= i < |k.chunks| :: Paced(Limit(k.attempts), k.chunks[i], trace[n].copies[i])
  {
    if n > 0 {
      AttemptsAreUsedUp(k, t, trace, n - 1);
      StepAt(k, t, trace, n);
      var i: nat :| Moves(k, trace[n - 1], i) && trace[n] == Step(k, trace[n - 1], i);
      forall j | 0 <= j < |k.chunks| ensures Paced(Limit(k.attempts), k.chunks[j], trace[n].copies[j]) {
        assert Paced(Limit(k.attempts), k.chunks[j], trace[n - 1].copies[j]);
      }
    }
  }

  // ---- The entries of one chunk ----

  function Part(plan: Plan, chunk: seq<Entry>): Plan {
    map r | r in plan && plan[r] in chunk :: plan[r]
  }

  /** Each chunk by itself could be finished from this tree. */
  ghost predicate AllFinishable(k: Job, t: Tree, plan: Plan) {
    forall i | 0 <= i < |k.chunks| :: Finishable(t, k.config, k.source, Part(plan, k.chunks[i]))
  }

  lemma PartTolerates(t: Tree, c: Config, src: Source, plan: Plan, chunk: seq<Entry>, e: Entry, q: Path)
    requires InPlan(plan, e) && e in chunk && !e.kind.Other? && Passable(t, c, src, Part(plan, chunk))
    requires q in t && Stray(c, Part(plan, chunk), q) && Above(q, Dst(c, e))
    ensures Tolerable(t, c, src, Part(plan, chunk), e, q)
  {
    assert Part(plan, chunk)[e.path] == e;
  }

  lemma WiderTolerates(t: Tree, c: Config, src: Source, plan: Plan, chunk: seq<Entry>, e: Entry, q: Path)
    requires q in t && Above(q, Dst(c, e)) && Tolerable(t, c, src, Part(plan, chunk), e, q)
    ensures Tolerable(t, c, src, plan, e, q)
  {
    var x := Next(q, Dst(c, e));
    if LeafBelow(c, src, Part(plan, chunk), x) {
      var r :| r in Part(plan, chunk) && RaisedBy(c, src, Part(plan, chunk)[r], x);
      assert RaisedBy(c, src, plan[r], x);
    }
  }

  /** Then so could the whole plan. */
  lemma WholeIsFinishable(k: Job, t: Tree, plan: Plan)
    requires ValidPlan(plan) && Cuts(k.chunks, plan) && AllFinishable(k, t, plan)
    ensures Finishable(t, k.config, k.source, plan)
  {
    var c, src := k.config, k.source;
    forall r | r in plan
      ensures !ObstacleAt(t, c, plan[r]) && (plan[r].kind.Regular? && r in src ==> src[r].File?)
      ensures forall q | !plan[r].kind.Other? && q in t && Stray(c, plan, q) && Above(q, Dst(c, plan[r])) ::
                Tolerable(t, c, src, plan, plan[r], q)
    {
      var e := plan[r];
      assert InPlan(plan, e);
      var i :| 0 <= i < |k.chunks| && e in k.chunks[i];
      var part := Part(plan, k.chunks[i]);
      assert Finishable(t, c, src, part) && r in part && part[r] == e;
      assert !ObstacleAt(t, c, part[r]);
      forall q | !e.kind.Other? && q in t && Stray(c, plan, q) && Above(q, Dst(c, e))
        ensures Tolerable(t, c, src, plan, e, q)
      {
        PartTolerates(t, c, src, plan, k.chunks[i], e, q);
        WiderTolerates(t, c, src, plan, k.chunks[i], e, q);
      }
    }
  }

  /** A tree without hindrances is such a tree, however the plan is cut. */
  lemma FitIsFinishable(k: Job, t: Tree, plan: Plan)
    requires ValidConfig(k.config) && ValidPlan(plan) && SourceStable(k.source, plan)
    requires Fit(t, k.config, k.source, plan)
    ensures AllFinishable(k, t, plan)
  {
    var c, src := k.config, k.source;
    forall i | 0 <= i < |k.chunks| ensures Finishable(t, c, src, Part(plan, k.chunks[i])) {
      var part := Part(plan, k.chunks[i]);
      forall r | r in part ensures !ObstacleAt(t, c, part[r]) {
        if !plan[r].kind.Other? { assert FitAt(t, c, src, plan[r]); }
      }
      forall r, q | r in part && !part[r].kind.Other? && q in t && Stray(c, part, q) && Above(q, Dst(c, part[r]))
        ensures Tolerable(t, c, src, part, part[r], q)
      {
        assert FitAt(t, c, src, plan[r]) && Bearable(t, c, src, plan[r], q);
      }
    }
  }

  // ---- What a second pass finds, whatever the others have done ----

  /** A node above an entry that is as it was at the start, and is not listed in
      the entry's own chunk. */
  lemma UnchangedIsBearable(t0: Tree, t: Tree, c: Config, src: Source, plan: Plan, chunk: seq<Entry>, e: Entry, q: Path)
    requires ValidPlan(plan) && Between(t0, t, c, src, plan) && Passable(t0, c, src, Part(plan, chunk))
    requires Drawn(chunk, plan) && e in chunk && !e.kind.Other? && forall f | f in chunk :: Readied(t0, t, c, src, f)
    requires Above(c.root, q) && Above(q, Dst(c, e)) && q in t0 && Look(t, q) == Look(t0, q)
    requires Stray(c, Part(plan, chunk), q)
    ensures q in t && Bearable(t, c, src, e, q)
  {
    PartTolerates(t0, c, src, plan, chunk, e, q);
    if Demanding(t, c, src, e) { DemandsWereThere(t0, t, c, src, plan, e); }
    if e.kind.Directory? && PublicWritable(t[q]) {
      var x := Next(q, Dst(c, e));
      if IsDir(t0, x) {
        if x == Dst(c, e) { ListedDirStays(t0, t, c, src, plan, e); } else { DirStays(t0, t, c, src, plan, e, x); }
      } else {
        var r :| r in Part(plan, chunk) && RaisedBy(c, src, Part(plan, chunk)[r], x);
        assert Readied(t0, t, c, src, plan[r]);
      }
    }
  }

  /** A listed directory that has changed since the start is safe. */
  lemma ChangedIsSafe(t0: Tree, t: Tree, c: Config, src: Source, plan: Plan, f: Entry)
    requires ValidConfig(c) && ValidPlan(plan) && Between(t0, t, c, src, plan) && Unobstructed(t, c, plan)
    requires InPlan(plan, f) && f.kind.Directory? && f.path != []
    requires Dst(c, f) in t && Look(t, Dst(c, f)) != Look(t0, Dst(c, f))
    ensures SafeDir(t[Dst(c, f)])
  {
    var q := Dst(c, f);
    ListedAt(c, plan, f);
    ConfigDirs(c);
    assert OnTheWay(Look(t0, q), Look(t, q), Expected(t0, c, src, plan, q));
    assert !ObstacleAt(t, c, plan[f.path]);
  }

  lemma VisitedIsBearable(t0: Tree, t: Tree, c: Config, src: Source, plan: Plan, chunk: seq<Entry>, e: Entry, q: Path)
    requires ValidConfig(c) && ValidPlan(plan) && Between(t0, t, c, src, plan) && Unobstructed(t, c, plan)
    requires Drawn(chunk, plan) && Passable(t0, c, src, Part(plan, chunk))
    requires e in chunk && !e.kind.Other? && forall f | f in chunk :: Readied(t0, t, c, src, f)
    requires q in t && Above(c.root, q) && Above(q, Dst(c, e))
    ensures Bearable(t, c, src, e, q)
  {
    ConfigDirs(c);
    AboveIsExpected(t0, c, src, plan, e, q);
    if Listed(c, plan, q) {
      var f := plan[q[|c.root|..]];
      assert f.path != [];
      if f in chunk {
        assert Readied(t0, t, c, src, f);
      } else if Look(t, q) == Look(t0, q) {
        UnchangedIsBearable(t0, t, c, src, plan, chunk, e, q);
      } else {
        ChangedIsSafe(t0, t, c, src, plan, f);
      }
    } else {
      StrayStays(t0, t, c, src, plan, e, q);
      if q in t0 { UnchangedIsBearable(t0, t, c, src, plan, chunk, e, q); }
    }
  }

  lemma SecondVisitSucceeds(t0: Tree, t: Tree, c: Config, src: Source, plan: Plan, chunk: seq<Entry>, e: Entry)
    requires ValidConfig(c) && RootReady(t, c) && ValidPlan(plan) && SourceStable(src, plan)
    requires Between(t0, t, c, src, plan) && Unobstructed(t, c, plan)
    requires Drawn(chunk, plan) && Passable(t0, c, src, Part(plan, chunk))
    requires e in chunk && forall f | f in chunk :: Readied(t0, t, c, src, f)
    ensures !Route(t, c, src, e).out.Failed?
  {
    if !e.kind.Other? {
      forall q | q in t && Above(c.root, q) && Above(q, Dst(c, e)) ensures Bearable(t, c, src, e, q) {
        VisitedIsBearable(t0, t, c, src, plan, chunk, e, q);
      }
      assert Readied(t0, t, c, src, e) && !ObstacleAt(t, c, plan[e.path]);
      if e.path == [] { assert e.kind.Directory?; }
      assert FitAt(t, c, src, e);
    }
    FitSucceeds(t, c, src, e);
  }

  // ---- What one worker's step leaves of the others' work ----

  /** A settled entry stays settled also when another entry fails. */
  lemma SettledSurvives(t: Tree, c: Config, src: Source, plan: Plan, e: Entry, f: Entry)
    requires ValidConfig(c) && RootReady(t, c) && ValidPlan(plan) && Drawn([e, f], plan)
    requires Settled(t, c, src, e) && !ObstacleAt(t, c, f)
    ensures Settled(Route(t, c, src, f).tree, c, src, e)
  {
    var u := Route(t, c, src, f).tree;
    assert e in [e, f] && f in [e, f];
    SettledIsQuiet(t, c, src, e);
    if e != f && u != t {
      var p, g := Dst(c, e), Dst(c, f);
      EditElsewhere(t, c, src, f);
      DstOrder(c, e, f);
      DstOrder(c, f, e);
      ConfigDirs(c);
      if f.kind.Directory? { DirectoryEdits(t, c, src, f); }
      AllAncestors(t);
      assert p in t ==> Look(u, p) == Look(t, p);
      match e.kind {
        case Directory =>
          forall q | q in u && q != [] && Upto(q, p) ensures u[q].Dir? ==> Secure(u[q]) {
            if q != p { PrefixOfParent(p, q); }
            if q != g { assert Look(u, q) == Look(t, q); }
          }
        case Regular =>
          if e.path !in src {
            forall q | q in u && Above(q, p) ensures u[q].Dir? {
              if q != g { assert Look(u, q) == Look(t, q) || Look(u, q) == Some(NewDir(c)); }
            }
            assert Look(u, p) == Look(t, p) || Look(u, p) == Some(NewDir(c)) || p !in u;
          }
        case _ =>
      }
    }
  }

  /** What all steps keep of the tree. */
  ghost predicate Shared(k: Job, t0: Tree, t: Tree, plan: Plan) {
    RootReady(t, k.config) && Between(t0, t, k.config, k.source, plan) && Unobstructed(t, k.config, plan)
  }

  /** What a worker knows of its chunk: what it has visited is readied, what it
      has handled in a pass without errors is settled, and no second pass has an
      error. */
  ghost predicate CopyInv(k: Job, t0: Tree, t: Tree, chunk: seq<Entry>, w: Copy) {
    && w.pos <= |chunk| && w.passes <= 1 && (w.passes == 1 ==> !w.failed)
    && (forall j | 0 <= j < (if w.passes == 0 then w.pos else |chunk|) ::
          Readied(t0, t, k.config, k.source, chunk[j]))
    && (!w.failed ==> forall j | 0 <= j < w.pos :: Settled(t, k.config, k.source, chunk[j]))
    && (w.ended ==> !w.failed && w.pos == |chunk|)
  }

  ghost predicate Inv(k: Job, t0: Tree, plan: Plan, s: State) {
    && |s.copies| == |k.chunks| && Shared(k, t0, s.tree, plan)
    && forall i | 0 <= i < |k.chunks| :: CopyInv(k, t0, s.tree, k.chunks[i], s.copies[i])
  }

  /** The plan is cut into the chunks, and each can be finished from `t0`. */
  ghost predicate Sound(k: Job, t0: Tree, plan: Plan) {
    && ValidConfig(k.config) && RootReady(t0, k.config) && ValidPlan(plan)
    && Cuts(k.chunks, plan) && AllFinishable(k, t0, plan) && k.attempts >= 2
  }

  lemma ChunkIsDrawn(k: Job, plan: Plan, i: nat)
    requires Cuts(k.chunks, plan) && i < |k.chunks|
    ensures Drawn(k.chunks[i], plan)
  {
    forall e | e in k.chunks[i] ensures e.path in plan && plan[e.path] == e {
      assert InSome(k.chunks, e);
      assert InPlan(plan, e);
    }
  }

  /** One entry, by whichever worker, whether it fails or not. */
  lemma EntryKeepsShared(k: Job, t0: Tree, t: Tree, plan: Plan, e: Entry)
    requires Sound(k, t0, plan) && Shared(k, t0, t, plan) && Drawn([e], plan)
    ensures Shared(k, t0, Route(t, k.config, k.source, e).tree, plan)
    ensures Readied(t0, Route(t, k.config, k.source, e).tree, k.config, k.source, e)
  {
    var c, src := k.config, k.source;
    assert e in [e];
    WholeIsFinishable(k, t0, plan);
    RouteFrame(t, c, src, e);
    BetweenStays(t0, t, c, src, plan, e);
    VisitPrepares(t0, t, c, src, plan, e);
    VisitRaises(t0, t, c, src, plan, e);
    forall r | r in plan ensures !ObstacleAt(Route(t, c, src, e).tree, c, plan[r]) {
      assert !ObstacleAt(t, c, plan[e.path]) && !ObstacleAt(t, c, plan[r]);
      NoNewObstacle(t, c, src, plan, e, plan[r]);
    }
  }

  lemma EntryKeepsOther(k: Job, t0: Tree, t: Tree, plan: Plan, e: Entry, f: Entry)
    requires Sound(k, t0, plan) && Shared(k, t0, t, plan) && Drawn([e, f], plan)
    ensures Readied(t0, t, k.config, k.source, f) ==>
              Readied(t0, Route(t, k.config, k.source, e).tree, k.config, k.source, f)
    ensures Settled(t, k.config, k.source, f) ==> Settled(Route(t, k.config, k.source, e).tree, k.config, k.source, f)
  {
    var c, src := k.config, k.source;
    assert e in [e, f] && f in [e, f];
    if Readied(t0, t, c, src, f) {
      if e == f { EntryKeepsShared(k, t0, t, plan, e); }
      PreparedStays(t, c, src, plan, e, f);
      RaisedStays(t0, t, c, src, plan, e, f);
    }
    if Settled(t, c, src, f) {
      assert !ObstacleAt(t, c, plan[e.path]);
      assert Drawn([f, e], plan);
      SettledSurvives(t, c, src, plan, f, e);
    }
  }

  /** So a worker's knowledge outlasts an entry handled by another. */
  lemma EntryKeepsCopy(k: Job, t0: Tree, t: Tree, plan: Plan, e: Entry, chunk: seq<Entry>, w: Copy)
    requires Sound(k, t0, plan) && Shared(k, t0, t, plan) && Drawn([e], plan) && Drawn(chunk, plan)
    requires CopyInv(k, t0, t, chunk, w)
    ensures CopyInv(k, t0, Route(t, k.config, k.source, e).tree, chunk, w)
  {
    var u := Route(t, k.config, k.source, e).tree;
    assert e in [e];
    forall j | 0 <= j < |chunk|
      ensures Readied(t0, t, k.config, k.source, chunk[j]) ==> Readied(t0, u, k.config, k.source, chunk[j])
      ensures Settled(t, k.config, k.source, chunk[j]) ==> Settled(u, k.config, k.source, chunk[j])
    {
      EntryKeepsOther(k, t0, t, plan, e, chunk[j]);
    }
  }

  lemma SecondPassSucceeds(k: Job, t0: Tree, t: Tree, plan: Plan, i: nat, w: Copy)
    requires Sound(k, t0, plan) && Shared(k, t0, t, plan) && i < |k.chunks|
    requires CopyInv(k, t0, t, k.chunks[i], w) && w.pos < |k.chunks[i]| && w.passes == 1
    ensures !Route(t, k.config, k.source, k.chunks[i][w.pos]).out.Failed?
  {
    var c, src, chunk := k.config, k.source, k.chunks[i];
    ChunkIsDrawn(k, plan, i);
    assert Finishable(t0, c, src, Part(plan, chunk));
    WholeIsFinishable(k, t0, plan);
    SecondVisitSucceeds(t0, t, c, src, plan, chunk, chunk[w.pos]);
  }

  /** The worker's own step, once the tree is known to have kept the rest. */
  lemma CopyAdvances(k: Job, t0: Tree, u: Tree, chunk: seq<Entry>, w: Copy, failed: bool)
    requires CopyInv(k, t0, u, chunk, w) && w.pos < |chunk| && !w.ended
    requires Readied(t0, u, k.config, k.source, chunk[w.pos])
    requires !failed ==> Settled(u, k.config, k.source, chunk[w.pos])
    requires w.passes == 1 ==> !failed
    ensures CopyInv(k, t0, u, chunk, w.(pos := w.pos + 1, failed := w.failed || failed))
  {
  }

  lemma OwnEntryKeepsCopy(k: Job, t0: Tree, t: Tree, plan: Plan, i: nat, w: Copy, r: Mirror.Step)
    requires Sound(k, t0, plan) && Shared(k, t0, t, plan) && i < |k.chunks|
    requires CopyInv(k, t0, t, k.chunks[i], w) && w.pos < |k.chunks[i]| && !w.ended
    requires r == Route(t, k.config, k.source, k.chunks[i][w.pos])
    ensures Shared(k, t0, r.tree, plan)
    ensures CopyInv(k, t0, r.tree, k.chunks[i], w.(pos := w.pos + 1, failed := w.failed || r.out.Failed?))
  {
    var e := k.chunks[i][w.pos];
    ChunkIsDrawn(k, plan, i);
    assert Drawn([e], plan);
    EntryKeepsShared(k, t0, t, plan, e);
    EntryKeepsCopy(k, t0, t, plan, e, k.chunks[i], w);
    if w.passes == 1 { SecondPassSucceeds(k, t0, t, plan, i, w); }
    if !r.out.Failed? { SuccessSettles(t, k.config, k.source, e); }
    CopyAdvances(k, t0, r.tree, k.chunks[i], w, r.out.Failed?);
  }

  lemma InvIsInductive(k: Job, t0: Tree, plan: Plan, s: State, i: nat)
    requires Sound(k, t0, plan) && Inv(k, t0, plan, s) && Moves(k, s, i)
    ensures Inv(k, t0, plan, Step(k, s, i))
  {
    var u := Step(k, s, i);
    var chunk, w := k.chunks[i], s.copies[i];
    assert CopyInv(k, t0, s.tree, chunk, w);
    if w.pos < |chunk| {
      OwnEntryKeepsCopy(k, t0, s.tree, plan, i, w, Route(s.tree, k.config, k.source, chunk[w.pos]));
      ChunkIsDrawn(k, plan, i);
      forall j | 0 <= j < |k.chunks| ensures CopyInv(k, t0, u.tree, k.chunks[j], u.copies[j]) {
        if j != i {
          ChunkIsDrawn(k, plan, j);
          assert CopyInv(k, t0, s.tree, k.chunks[j], s.copies[j]) && Drawn([chunk[w.pos]], plan);
          EntryKeepsCopy(k, t0, s.tree, plan, chunk[w.pos], k.chunks[j], s.copies[j]);
        }
      }
    } else {
      forall j | 0 <= j < |k.chunks| ensures CopyInv(k, t0, u.tree, k.chunks[j], u.copies[j]) {
        assert CopyInv(k, t0, s.tree, k.chunks[j], s.copies[j]);
      }
    }
  }

  lemma FollowsKeepsInv(k: Job, t0: Tree, plan: Plan, s: State, u: State)
    requires Sound(k, t0, plan) && Inv(k, t0, plan, s) && Follows(k, s, u)
    ensures Inv(k, t0, plan, u)
  {
    var i: nat :| Moves(k, s, i) && u == Step(k, s, i);
    InvIsInductive(k, t0, plan, s, i);
  }

  lemma InvStarts(k: Job, t0: Tree, plan: Plan)
    requires Sound(k, t0, plan)
    ensures Inv(k, t0, plan, Init(k, t0))
  {
    WholeIsFinishable(k, t0, plan);
    assert Between(t0, t0, k.config, k.source, plan);
  }

  lemma {:induction false} ScheduleKeepsInv(k: Job, t0: Tree, plan: Plan, trace: seq<State>, n: nat)
    requires Sound(k, t0, plan) && Schedule(k, t0, trace) && n < |trace|
    ensures Inv(k, t0, plan, trace[n])
  {
    if n == 0 {
      InvStarts(k, t0, plan);
    } else {
      ScheduleKeepsInv(k, t0, plan, trace, n - 1);
      StepAt(k, t0, trace, n);
      FollowsKeepsInv(k, t0, plan, trace[n - 1], trace[n]);
    }
  }

  /** However the workers interleave: if each chunk by itself could be finished
      from the starting tree and a retry is allowed, no worker needs a third
      pass or ends with an error, and the tree is the expected one. */
  lemma RetriesReachGoal(k: Job, t0: Tree, plan: Plan, trace: seq<State>, n: nat)
    requires Sound(k, t0, plan) && Schedule(k, t0, trace) && n < |trace| && Ended(trace[n])
    ensures forall i | 0 <= i < |trace[n].copies| :: !trace[n].copies[i].failed && trace[n].copies[i].passes <= 1
    ensures forall q :: Look(trace[n].tree, q) == Expected(t0, k.config, k.source, plan, q)
  {
    var s := trace[n];
    ScheduleKeepsInv(k, t0, plan, trace, n);
    forall i | 0 <= i < |s.copies| ensures !s.copies[i].failed && s.copies[i].passes <= 1 {
      assert CopyInv(k, t0, s.tree, k.chunks[i], s.copies[i]);
    }
    forall r | r in plan ensures Settled(s.tree, k.config, k.source, plan[r]) {
      assert InPlan(plan, plan[r]);
      var i :| 0 <= i < |k.chunks| && plan[r] in k.chunks[i];
      assert CopyInv(k, t0, s.tree, k.chunks[i], s.copies[i]);
    }
    SettledMeansExpected(t0, s.tree, k.config, k.source, plan);
  }

  // ---- Every run of the workers ends ----

  ghost predicate CanMove(k: Job, s: State) {
    exists i: nat :: Moves(k, s, i)
  }

  /** At most this many steps are left to a worker that makes two passes. */
  function Left(chunk: seq<Entry>, w: Copy): int {
    if w.ended then 0 else (if w.passes == 0 then |chunk| + 2 else 1) + |chunk| - w.pos
  }

  function Rank(chunks: seq<seq<Entry>>, copies: seq<Copy>): int
    requires |chunks| == |copies|
  {
    if copies == [] then 0
    else
      var n := |copies| - 1;
      Rank(chunks[..n], copies[..n]) + Left(chunks[n], copies[n])
  }

  lemma {:induction false} RankUpdate(chunks: seq<seq<Entry>>, copies: seq<Copy>, i: nat, w: Copy)
    requires |chunks| == |copies| && i < |copies|
    ensures Rank(chunks, copies[i := w]) == Rank(chunks, copies) - Left(chunks[i], copies[i]) + Left(chunks[i], w)
    decreases |copies|
  {
    var n := |copies| - 1;
    if i < n {
      assert copies[i := w][..n] == copies[..n][i := w];
      RankUpdate(chunks[..n], copies[..n], i, w);
    } else {
      assert copies[i := w][..n] == copies[..n];
    }
  }

  lemma StepDescends(k: Job, t0: Tree, plan: Plan, s: State, u: State)
    requires Inv(k, t0, plan, s) && Follows(k, s, u)
    ensures |u.copies| == |k.chunks| && Rank(k.chunks, u.copies) < Rank(k.chunks, s.copies)
  {
    var i: nat :| Moves(k, s, i) && u == Step(k, s, i);
    assert CopyInv(k, t0, s.tree, k.chunks[i], s.copies[i]);
    assert u.copies == s.copies[i := u.copies[i]];
    RankUpdate(k.chunks, s.copies, i, u.copies[i]);
  }

  lemma {:induction false} RankIsPositive(chunks: seq<seq<Entry>>, copies: seq<Copy>)
    requires |chunks| == |copies| && forall i | 0 <= i < |copies| :: copies[i].pos <= |chunks[i]|
    ensures Rank(chunks, copies) >= 0
    decreases |copies|
  {
    if copies != [] { RankIsPositive(chunks[..|copies| - 1], copies[..|copies| - 1]); }
  }

  lemma {:induction false} RankFalls(k: Job, t0: Tree, plan: Plan, trace: seq<State>, n: nat)
    requires Sound(k, t0, plan) && Schedule(k, t0, trace) && n < |trace|
    ensures |trace[n].copies| == |k.chunks|
    ensures Rank(k.chunks, trace[n].copies) + n <= Rank(k.chunks, trace[0].copies)
  {
    if n > 0 {
      RankFalls(k, t0, plan, trace, n - 1);
      ScheduleKeepsInv(k, t0, plan, trace, n - 1);
      StepAt(k, t0, trace, n);
      StepDescends(k, t0, plan, trace[n - 1], trace[n]);
    }
  }

  lemma {:induction false} RankAtStart(chunks: seq<seq<Entry>>, copies: seq<Copy>)
    requires |chunks| == |copies| && forall i | 0 <= i < |copies| :: copies[i] == Copy(0, 0, false, false)
    ensures Rank(chunks, copies) == 2 * |Flat(chunks)| + 2 * |chunks|
    decreases |copies|
  {
    if copies != [] { RankAtStart(chunks[..|copies| - 1], copies[..|copies| - 1]); }
  }

  /** No run of the workers is longer than two steps per entry and two per
      chunk, and one that cannot go on has ended. */
  lemma RetriesAreBounded(k: Job, t0: Tree, plan: Plan, trace: seq<State>)
    requires Sound(k, t0, plan) && Schedule(k, t0, trace)
    ensures |trace| <= 1 + 2 * |Flat(k.chunks)| + 2 * |k.chunks|
    ensures Ended(trace[|trace| - 1]) || CanMove(k, trace[|trace| - 1])
  {
    var s := trace[|trace| - 1];
    RankFalls(k, t0, plan, trace, |trace| - 1);
    RankAtStart(k.chunks, trace[0].copies);
    ScheduleKeepsInv(k, t0, plan, trace, |trace| - 1);
    forall i | 0 <= i < |s.copies| ensures s.copies[i].pos <= |k.chunks[i]| {
      assert CopyInv(k, t0, s.tree, k.chunks[i], s.copies[i]);
    }
    RankIsPositive(k.chunks, s.copies);
    if i: nat :| i < |s.copies| && !s.copies[i].ended { assert Moves(k, s, i); }
  }
}
